# PSStringTemplate core, modelled in Dafny

PSStringTemplate is a PowerShell module. Its `Invoke-StringTemplate` cmdlet renders
StringTemplate 4 templates with arguments taken from a PowerShell object, and
`New-StringTemplateGroup` builds the groups that hold them. This project models
the module's core:

- how the cmdlet picks a template and binds it to the cmdlet (error listener,
  model adaptors, date renderers);
- how properties, static properties, accessor methods and dictionary entries
  are turned into template arguments, and which failures are swallowed;
- how the instance is rendered, reset and unbound after each record;
- the two model adaptors the engine calls back into (PSObject and System.Type)
  and their truthiness filter;
- the wrappers around engine groups and templates: display names, parameter
  lists, instance reset;
- the helper that turns an engine template message into a PowerShell
  diagnostic: description and script extent.

The StringTemplate engine itself is a stand-in (`Engine`). Template `Add` and
`Render` outcomes are function-valued fields of the compiled template, so the
model is proved for every engine behaviour. Group parsing and template compiling
are function parameters. PowerShell's `LanguagePrimitives.IsTrue` is the
parameter `isTrue`, and the base `ObjectModelAdaptor` lookup is the parameter
`baseGet`. A member getter or a method invocation is a value, `Returned(v)` or
`Threw(e)`, fixed in the input object.

The cmdlet's argument binding is stated twice:

- as a pure specification: `Binding.ArgumentSteps` lists the
  add-calls, traces and escaping exceptions an input object gives rise to, and
  `Binding.Run` folds them over the template;
- as the class `InvokeStringTemplate.InvokeStringTemplateCommand`, whose methods
  update the trace and the template instance in place. Each method is proved
  equal to `Run` of its steps.

The lemmas in `Binding` then state what the binder promises: which attributes
end up on the template, that the first fatal step stops it, and that
undeclared attributes do not.

Modules: `Wrappers`, `Text`, `Host` (the PowerShell object model),
`AdapterUtil`, `TypeAdapter`, `PSObjectAdaptor`, `MessageHelper`, `Engine`,
`Groups` (TemplateInfo and TemplateGroupInfo, which refer to each other),
`Binding`, `InvokeStringTemplate`.

Where the code and its written description differ, the model follows the code:

- Accessor-method results are added as they are. They are not normalised: there
  is no conversion of a failing or empty result to 0 or null.
- `PSObjectAdaptor.GetProperty` does not catch. A missing property or accessor
  throws `First`'s exception, and a throwing getter or accessor propagates.
- `Unbind` is not in a `finally` block. When binding or rendering throws, the
  group keeps the cmdlet's listener.
- When the named template is not found, `Bind` has already run, so the group
  also stays bound.
- The extent's line number is the recognition exception's `Line`, or 0 when
  there is none. It is not a computed one-based line.
- A static property and an instance property of the same name are both added.
  Neither takes precedence; the engine decides what the second `Add` does.

## Model

| member | source | states |
|---|---|---|
| AdapterUtil.NullIfEmpty | src/PSStringTemplate/AdapterUtil.cs:16-23 | the result is null or the input itself, and it is non-null exactly when the input is non-null and truthy |
| TypeAdapter.FindStatic | src/PSStringTemplate/TypeAdapter.cs:30-41 | reflection's static lookup: nothing exactly when no static property has the name; ambiguous exactly when two do; otherwise that property of the type |
| TypeAdapter.CountNamedAmbiguous | src/PSStringTemplate/TypeAdapter.cs:38-41 | more than one property of the name is the same as two distinct positions carrying it |
| TypeAdapter.GetStaticProperty | src/PSStringTemplate/TypeAdapter.cs:21-44 | null for a non-type and for a missing or ambiguous property; otherwise the getter's exception or the filtered value, which is null or truthy |
| TypeAdapter.GetProperty | src/PSStringTemplate/TypeAdapter.cs:10-19 | non-types and unresolved or falsy static values go to the base adaptor; a unique truthy static value is returned; a throwing getter propagates |
| TypeAdapter.StaticTakesPrecedence | src/PSStringTemplate/TypeAdapter.cs:17-18 | a unique truthy static property wins over whatever the base adaptor would return |
| PSObjectAdaptor.FirstProperty | src/PSStringTemplate/PSObjectAdaptor.cs:18-20 | `First(p => p.Name == name)`: the first index with that name, or none when no property has it |
| PSObjectAdaptor.FirstAccessor | src/PSStringTemplate/PSObjectAdaptor.cs:22-25 | the first method named "Get" + name whose first overload contains "()" and not "void", or none |
| PSObjectAdaptor.GetProperty | src/PSStringTemplate/PSObjectAdaptor.cs:16-29 | any object that is not a PSObject is answered by the base adaptor; a null answer for a PSObject can only be the outcome of a qualifying accessor, never a null property value |
| PSObjectAdaptor.PropertyValueWins | src/PSStringTemplate/PSObjectAdaptor.cs:18-21 | the first property of the name, when non-null, is returned as it is (no truthiness filter) |
| PSObjectAdaptor.PropertyThrowWins | src/PSStringTemplate/PSObjectAdaptor.cs:18-21 | a throwing getter on the first property of the name propagates its exception and no method is consulted |
| PSObjectAdaptor.AccessorFallback | src/PSStringTemplate/PSObjectAdaptor.cs:22-25 | a null property value falls back to invoking the first qualifying accessor, whose outcome is the answer |
| PSObjectAdaptor.MissingMemberThrows | src/PSStringTemplate/PSObjectAdaptor.cs:18-25 | no property of the name, or a null value and no accessor: the lookup throws the no-matching-element exception |
| PSObjectAdaptor.ResultComesFromMember | src/PSStringTemplate/PSObjectAdaptor.cs:16-27 | every PSObject answer is the first named property's outcome or the first accessor's outcome |
| Groups.StripRootSlash | src/PSStringTemplate/TemplateInfo.cs:23 | one leading "/" is removed, anything else is unchanged |
| Groups.StripThenQualify | src/PSStringTemplate/TemplateInfo.cs:23 | re-qualifying a displayed root name gives the engine name back |
| Groups.QualifyThenStrip | src/PSStringTemplate/TemplateInfo.cs:23 | a bare name qualified and then displayed is itself |
| Groups.ParameterNames | src/PSStringTemplate/TemplateInfo.cs:28-40 | an unbuffered token stream has no parameters; a buffered one lists the texts of its parameter tokens |
| Groups.ParameterTextsMember | src/PSStringTemplate/TemplateInfo.cs:35-36 | a text is listed exactly when some token of type 25 carries it |
| Groups.ParameterTextsAppend | src/PSStringTemplate/TemplateInfo.cs:33-37 | the filter keeps token order: it distributes over concatenation |
| Groups.ParameterTextsLength | src/PSStringTemplate/TemplateInfo.cs:33-37 | there are at most as many parameters as tokens, and as many when every token is a parameter token |
| Groups.TemplateInfo.ResetInstance | src/PSStringTemplate/TemplateInfo.cs:62-66 | a fresh instance of the same compiled template, with no attributes, replaces the old one; the name is unchanged |
| Groups.TemplateGroupInfo.constructor | src/PSStringTemplate/TemplateGroupInfo.cs:27-37 | one fresh wrapper per engine template, in the engine's order, each with a fresh empty instance of that template and pointing back at the group |
| Groups.TemplateGroupInfo.TemplateNames | src/PSStringTemplate/InvokeStringTemplateCommand.cs:69-70 | the displayed names of the wrappers, position by position |
| Groups.TemplateGroupInfo.Bind | src/PSStringTemplate/TemplateGroupInfo.cs:63-66 | the engine group gets the cmdlet's listener, the PSObject and Type adaptors and the two date renderers; its templates are unchanged |
| Groups.TemplateGroupInfo.BindGroup | src/PSStringTemplate/TemplateGroupInfo.cs:67-74 | the same, on a bare engine group |
| Groups.TemplateGroupInfo.Unbind | src/PSStringTemplate/TemplateGroupInfo.cs:76-83 | only the listener goes back to the default; the registrations stay |
| Groups.TemplateGroupInfo.CreateFromTemplateDefinition | src/PSStringTemplate/TemplateGroupInfo.cs:45-53 | a fresh bound group with one template under the default name whose add and render behaviour is that of the compiled definition, with `HasFormalArgs` cleared |
| Groups.TemplateGroupInfo.CreateFromGroupDefinition | src/PSStringTemplate/TemplateGroupInfo.cs:55-61 | a fresh group bound to the cmdlet's listener, wrapping every parsed template in order: each wrapper has the parsed name, tokens, add and render behaviour and formal-argument flag, and an empty instance of its engine template |
| Engine.TemplateGroup.GetInstanceOf | src/PSStringTemplate/TemplateInfo.cs:64 | a fresh empty instance of the template with that qualified name, or null when there is none |
| Binding.Classify | src/PSStringTemplate/InvokeStringTemplateCommand.cs:220-246 | an add either binds, is skipped exactly when it fails with an ArgumentException starting "no such attribute: ", or fails with the engine's own exception |
| Binding.Apply | src/PSStringTemplate/InvokeStringTemplateCommand.cs:218-247 | a fatal step leaves what was added and written and records its exception; any other step leaves no failure |
| Binding.RunCounts | src/PSStringTemplate/InvokeStringTemplateCommand.cs:218-247 | `Run`: no more stored attributes than traces and no more traces than steps; exactly one trace per step when binding does not fail; a failed binding stopped at its first fatal step, with one trace for each step before it and none for that step |
| Binding.TracesFollowVerdicts | src/PSStringTemplate/InvokeStringTemplateCommand.cs:222-243 | when no step is fatal, the verbose trace names an attribute exactly when some attempt of it was bound, and the debug trace exactly when some attempt of it was rejected as undeclared |
| Binding.RunFailsIffFatal | src/PSStringTemplate/InvokeStringTemplateCommand.cs:245 | binding fails exactly when one of its steps is fatal |
| Binding.StopsAtFirstFatal | src/PSStringTemplate/InvokeStringTemplateCommand.cs:245 | binding stops at the first fatal step: nothing after it is added or written, and its exception escapes |
| Binding.RunAfterFailure | src/PSStringTemplate/InvokeStringTemplateCommand.cs:245 | after a failure, further steps change nothing |
| Binding.RunAppend | src/PSStringTemplate/InvokeStringTemplateCommand.cs:138-198 | binding two lists in turn adds and writes what each does on its own |
| Binding.AddedWereAccepted | src/PSStringTemplate/InvokeStringTemplateCommand.cs:222 | every attribute on the template was attempted and accepted by the engine |
| Binding.AcceptedAreAdded | src/PSStringTemplate/InvokeStringTemplateCommand.cs:222-242 | when no step is fatal, every attempt the engine accepts ends up on the template |
| Binding.DictionarySteps | src/PSStringTemplate/InvokeStringTemplateCommand.cs:109-114 | one attempt per dictionary entry, in order, under the key cast to string (null for a non-string key) |
| Binding.StaticSteps | src/PSStringTemplate/InvokeStringTemplateCommand.cs:200-211 | one step per static property, in order: the filtered value, or the getter's exception |
| Binding.StaticPropertiesFirst | src/PSStringTemplate/InvokeStringTemplateCommand.cs:140-143 | for a wrapped type the static-property steps come first, ahead of every instance property and accessor |
| Binding.PropertyStepsMember | src/PSStringTemplate/InvokeStringTemplateCommand.cs:146-162 | an instance property is attempted exactly when its getter returns a non-null value, under its own name and with that raw value |
| Binding.RecordedNamesMember | src/PSStringTemplate/InvokeStringTemplateCommand.cs:160-161 | a name is recorded exactly when a property of that name has a non-null value, whether or not its add was skipped |
| Binding.IsGetterName | src/PSStringTemplate/InvokeStringTemplateCommand.cs:171-173 | `^Get[A-Z]`: a matching name is at least four characters long, and its derived name is the rest after "Get", starting with an ASCII upper-case letter, so the two regexes agree |
| Binding.DerivedName | src/PSStringTemplate/InvokeStringTemplateCommand.cs:173 | a leading "Get" is removed, anything else is unchanged |
| Binding.MethodStepsAttempt | src/PSStringTemplate/InvokeStringTemplateCommand.cs:169-197 | an accessor result is attempted exactly when some method qualifies for that derived name and returns that result |
| Binding.MethodStepsNote | src/PSStringTemplate/InvokeStringTemplateCommand.cs:171-194 | an accessor's debug trace, naming the method and its derived name, is written exactly when some qualifying method with those names throws when invoked |
| Binding.MethodStepsMember | src/PSStringTemplate/InvokeStringTemplateCommand.cs:169-197 | the accessor loop's steps are exactly those of its methods taken one at a time |
| Binding.MethodStepsShape | src/PSStringTemplate/InvokeStringTemplateCommand.cs:169-197 | `MethodSteps`: at most one step per method, each an attempt under a derived name that is a template parameter and not a recorded property, or the debug trace of a throwing accessor; never an escaping exception |
| Binding.PropertyStepsShape | src/PSStringTemplate/InvokeStringTemplateCommand.cs:146-162 | `PropertySteps` and `RecordedNames`: at most one attempt per property, never an escaping exception, each with a non-null value, and the recorded names are the names of these attempts in the same order |
| Binding.ObjectStepsShape | src/PSStringTemplate/InvokeStringTemplateCommand.cs:138-198 | `ObjectSteps`: an exception escapes only from a throwing static getter of a wrapped type, and the only traces of its own (not an add's verdict) are accessor failures |
| Binding.ArgumentStepsShape | src/PSStringTemplate/InvokeStringTemplateCommand.cs:107-120 | `ArgumentSteps`: no steps without `Parameters`, one attempt per entry for a dictionary, escaping exceptions only for a wrapped type, traces of its own only for accessor failures |
| Binding.BinderTraces | src/PSStringTemplate/InvokeStringTemplateCommand.cs:107-120 | for a whole `Parameters` input whose binding does not stop, the verbose and debug traces name exactly the bound and the undeclared attributes |
| Text.IndexOf | src/PSStringTemplate/InvokeStringTemplateCommand.cs:96-97 | `FirstOrDefault(t => t.Name == name)` as a position: the first position holding the name, and none exactly when it is absent |
| InvokeStringTemplate.RequestedName | src/PSStringTemplate/InvokeStringTemplateCommand.cs:73 | `Name ?? names.FirstOrDefault()`: the given name, else the first template name, else none when there are no templates |
| InvokeStringTemplate.SelectTemplate | src/PSStringTemplate/InvokeStringTemplateCommand.cs:69-97 | the first template with the requested name, or the first template when no name is given; nothing exactly when that name is not in the group (or the group is empty and no name is given) |
| InvokeStringTemplate.InvokeStringTemplateCommand.AddTemplateArgument | src/PSStringTemplate/InvokeStringTemplateCommand.cs:218-247 | trace, attributes and escaping exception are those of the one-step binder |
| InvokeStringTemplate.InvokeStringTemplateCommand.ProcessStaticProperties | src/PSStringTemplate/InvokeStringTemplateCommand.cs:200-211 | trace, attributes and escaping exception are those of the binder run over the static-property steps |
| InvokeStringTemplate.InvokeStringTemplateCommand.ProcessObjectAsArguments | src/PSStringTemplate/InvokeStringTemplateCommand.cs:138-198 | the same for the object's static, instance-property and accessor steps |
| InvokeStringTemplate.InvokeStringTemplateCommand.AddProperties | src/PSStringTemplate/InvokeStringTemplateCommand.cs:146-162 | the same for the instance-property steps, and the recorded names are those of the properties with non-null values |
| InvokeStringTemplate.InvokeStringTemplateCommand.AddAccessors | src/PSStringTemplate/InvokeStringTemplateCommand.cs:169-197 | the same for the accessor steps |
| InvokeStringTemplate.InvokeStringTemplateCommand.AddAccessor | src/PSStringTemplate/InvokeStringTemplateCommand.cs:171-196 | one pass of the accessor loop: the trace and attributes equal `Run` of the one method's steps, so a non-qualifying method changes nothing, a throwing one only adds its debug trace, and a returning one is added under its derived name |
| InvokeStringTemplate.InvokeStringTemplateCommand.AddDictionaryEntries | src/PSStringTemplate/InvokeStringTemplateCommand.cs:109-114 | the same for the dictionary steps |
| InvokeStringTemplate.InvokeStringTemplateCommand.AddArguments | src/PSStringTemplate/InvokeStringTemplateCommand.cs:104-118 | the same for the whole `Parameters` input: nothing, a dictionary, or any other object |
| InvokeStringTemplate.InvokeStringTemplateCommand.RenderCurrent | src/PSStringTemplate/InvokeStringTemplateCommand.cs:104-130 | a binding or render failure escapes with the group bound and the instance kept; otherwise non-null text is written, the instance is reset and the listener restored |
| InvokeStringTemplate.InvokeStringTemplateCommand.RenderAndReset | src/PSStringTemplate/InvokeStringTemplateCommand.cs:122-130 | a render failure escapes with trace, instance and listener unchanged; otherwise the text, when not null, is written, the instance is replaced by a fresh empty one of the same template and the listener goes back to the default; the group stays valid |
| InvokeStringTemplate.InvokeStringTemplateCommand.ProcessRecord | src/PSStringTemplate/InvokeStringTemplateCommand.cs:63-131 | an unknown name is a terminating error and the group stays bound; otherwise the selected template, or a fresh one-template group compiled from the definition, is bound, rendered, reset and unbound as stated for `RenderCurrent`; an existing group stays valid, keeps its wrappers and engine templates, and every other wrapper keeps its instance and attributes |
| InvokeStringTemplate.InvokeStringTemplateCommand.SelectFromGroup | src/PSStringTemplate/InvokeStringTemplateCommand.cs:65-97 | the group is bound; an unknown requested name gives the terminating error with the group's names and leaves the current template as it was; otherwise the current template is the first wrapper with that name |
| InvokeStringTemplate.InvokeStringTemplateCommand.ProcessWithGroup | src/PSStringTemplate/InvokeStringTemplateCommand.cs:65-98 | the existing-group path: selection as in `SelectFromGroup`, then rendering as in `RenderCurrent`; the group stays valid and keeps its wrappers and engine templates |
| InvokeStringTemplate.InvokeStringTemplateCommand.ProcessWithDefinition | src/PSStringTemplate/InvokeStringTemplateCommand.cs:100-104 | the definition path: a fresh wrapper in a fresh group becomes current; its template has the default name, the compiled definition's tokens, add and render behaviour, and `HasFormalArgs` cleared; then rendering as in `RenderCurrent` |
| MessageHelper.CauseOf | src/PSStringTemplate/MessageHelper.cs:32 | the cause is kept exactly when it is a recognition exception |
| MessageHelper.GetToken | src/PSStringTemplate/MessageHelper.cs:78-86 | the compile-time token, else the lexer's template token, else the cause's token; a token of any class but `CommonToken` gives none |
| MessageHelper.GetDescription | src/PSStringTemplate/MessageHelper.cs:70-76 | the lexer message's text, else `Arg` when it is a string, else the empty string |
| MessageHelper.Take | src/PSStringTemplate/MessageHelper.cs:53-54 | LINQ `Take`: the first k characters, clamped to the text |
| MessageHelper.RemoveCR | src/PSStringTemplate/MessageHelper.cs:49 | no carriage return is left, the newlines are kept, a text without carriage returns is unchanged, and the result is shorter by exactly the number of carriage returns, so they are deleted and not replaced |
| MessageHelper.RemoveCRAppend | src/PSStringTemplate/MessageHelper.cs:49 | removing carriage returns distributes over concatenation |
| MessageHelper.Split | src/PSStringTemplate/MessageHelper.cs:49 | one piece more than there are newlines, and no piece holds a newline |
| MessageHelper.JoinSplit | src/PSStringTemplate/MessageHelper.cs:49 | the pieces joined with newlines give the text back |
| MessageHelper.StartOffsetInLine | src/PSStringTemplate/MessageHelper.cs:42-44 | the cause's in-line position, else the token's, else 0 |
| MessageHelper.FullText | src/PSStringTemplate/MessageHelper.cs:48 | the cause's input, else the token's input stream, else the empty string |
| MessageHelper.FailureOffset | src/PSStringTemplate/MessageHelper.cs:54 | the cause's index, else the token's start index, else 0 |
| MessageHelper.Lines | src/PSStringTemplate/MessageHelper.cs:48-49 | one line more than the newlines of the text, none containing a newline or carriage return |
| MessageHelper.LineIndex | src/PSStringTemplate/MessageHelper.cs:53-55 | the newlines before the failure offset are always fewer than the lines |
| MessageHelper.LineText | src/PSStringTemplate/MessageHelper.cs:57-59 | the line of the carriage-return-free text numbered by the newlines before the failure offset; it holds no newline or carriage return |
| MessageHelper.LineTextIsSourceLine | src/PSStringTemplate/MessageHelper.cs:57-59 | the reported line text is line n of the text without carriage returns, n being the newlines before the failure offset, and those lines joined give that text back; the empty fallback is never taken |
| MessageHelper.FirstLineWhenNoNewlineBefore | src/PSStringTemplate/MessageHelper.cs:53-59 | a failure before the first newline, or with no offset, is reported on the first line |
| MessageHelper.GetScriptExtent | src/PSStringTemplate/MessageHelper.cs:40-68 | an empty extent (start equals end) with no file name; line = the cause's line or 0; column = the in-line offset plus one; line text = the source line holding the failure offset |
| MessageHelper.Translate | src/PSStringTemplate/MessageHelper.cs:27-38 | the description is the lexer message, else the string argument, else empty; the extent is empty, has no file, the cause's line or 0, the in-line offset plus one as column, and the failure's source line as text |

## Left out

- Verbose and debug messages are modelled as `Event` values. Their localized
  format strings, and the culture and list-separator formatting of the
  not-found message, are not modelled.
- The cmdlet's parameter sets and validation attributes are only the
  precondition that exactly one of `Group` and `Definition` is given.
- `Strings.DefaultTemplateName` is the parameter `defaultTemplateName`. It must
  be a root name after qualification, so that `ResetInstance` can find the
  template again by its displayed name.
- `TemplateGroupString` parsing and template compilation are the parameters
  `parse` and `compile`. Their errors, reported through the listener, are not
  modelled. In particular, the error listener class that turns messages into
  error records is not part of this model; `MessageHelper.Translate` is what it
  relies on.
- A property getter is read twice by the source: once for the null test and
  once for the add. The model reads each property once, so a getter that
  changes its value between the two reads is not captured.
- `StartsWith("no such attribute: ")` uses the current culture in the source.
  The model compares ordinally.
- `TemplateInfo.TemplateSource`, `TemplateGroupInfo.Templates` as a read-only
  collection, and `New-StringTemplateGroup` itself are thin pass-throughs and
  are not modelled.
- The `DateRenderer`, the PowerShell pipeline, concurrency and culture-dependent
  rendering are outside the model.
- A method's overload list is modelled by its first overload text alone. So the
  exception `OverloadDefinitions.First()` would throw on an empty list has no
  counterpart; a PowerShell method always has at least one overload.
- The engine's `GetTemplateNames()` is modelled as returning the names in
  definition order. When no `Name` is given, the template chosen as "the first"
  depends on that order, and the engine does not promise it.
- `PSObjectAdaptor.GetProperty`: its own contract covers delegation and null
  answers; the precedence of property over accessor, and the exceptions, are
  stated by the lemmas after it.
