/**
 * The PowerShell/.NET object model as the adaptors and the binder see it.
 * Reflection and the extended type system are replaced by explicit member
 * tables; every getter or invocation is an outcome value instead of a call
 * that may throw.
 */
module Host {

  import opened Wrappers

  /** A .NET exception, by the distinctions the core draws between them. */
  datatype Exn =
    | ArgumentException(message: string)   // System.ArgumentException and subclasses
    | NoMatchingElement                    // LINQ `First` over no matching element
    | OtherException(code: nat)            // anything else a foreign call throws

  /** A host object reference as the template engine receives it. */
  datatype Value =
    | Null
    | Str(s: string)
    | TypeObj(t: TypeDesc)                 // a System.Type
    | Dict(entries: seq<(Value, Value)>)   // an IDictionary, in enumeration order
    | Wrapped(ps: PSObject)                // a PowerShell PSObject
    | Opaque(id: nat)                      // any other object

  /** What reading a property or invoking a method produced. */
  datatype Outcome = Returned(v: Value) | Threw(e: Exn)

  /** A public static property of a type, with what its getter yields. */
  datatype StaticProperty = StaticProperty(name: string, value: Outcome)

  /** A System.Type reduced to its public static properties, in reflection order. */
  datatype TypeDesc = TypeDesc(staticProperties: seq<StaticProperty>)

  /** An entry of `PSObject.Properties`. */
  datatype Property = Property(name: string, value: Outcome)

  /** An entry of `PSObject.Methods`: its name, the text of its first overload
      definition (e.g. "string GetName()") and what invoking it with no arguments yields. */
  datatype Method = Method(name: string, firstOverload: string, invoke: Outcome)

  /** A PSObject: the wrapped base object and its adapted member tables. */
  datatype PSObject = PSObject(baseObject: Value, properties: seq<Property>, methods: seq<Method>)

  /** PowerShell's `LanguagePrimitives.IsTrue`, left uninterpreted. */
  type Truthiness = Value -> bool

  /** `obj as string`. */
  function AsString(v: Value): (r: Option<string>)
    ensures r.Some? <==> v.Str?
    ensures r.Some? ==> v == Str(r.value)
  {
    if v.Str? then Some(v.s) else None
  }
}
