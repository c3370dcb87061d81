/** The few JavaScript value semantics the action relies on: truthiness, string
    conversion in template literals and `URLSearchParams.append`, and property
    lookup on an object literal (which also sees `Object.prototype`). */
module JsValues {
  import opened Results

  /** The values that reach the modelled code: `null` (a default argument),
      `false` (the `|| false` fallback) and strings (everything `getInput` returns). */
  datatype JsValue = Null | Bool(b: bool) | Str(s: string)

  /** ECMAScript ToBoolean, restricted to the values above. */
  predicate Truthy(v: JsValue) {
    match v
    case Null => false
    case Bool(b) => b
    case Str(s) => s != ""
  }

  /** ECMAScript ToString, restricted to the values above. */
  function ToText(v: JsValue): string {
    match v
    case Null => "null"
    case Bool(b) => if b then "true" else "false"
    case Str(s) => s
  }

  /** `s || false` for a string `s`: the string itself when it is non-empty, `false` otherwise. */
  function OrFalse(s: string): (r: JsValue)
    ensures Truthy(r) <==> s != ""
    ensures Truthy(r) ==> ToText(r) == s
    ensures !Truthy(r) ==> r == Bool(false)
  {
    if s != "" then Str(s) else Bool(false)
  }

  /** The string names of the properties every object literal inherits from `Object.prototype`. */
  const ObjectPrototypeMethods: seq<string> :=
    ["__defineGetter__", "__defineSetter__", "hasOwnProperty", "__lookupGetter__",
     "__lookupSetter__", "isPrototypeOf", "propertyIsEnumerable", "toString",
     "valueOf", "toLocaleString"]

  predicate IsObjectPrototypeName(key: string) {
    key == "constructor" || key == "__proto__" || key in ObjectPrototypeMethods
  }

  /** The text a template literal produces for an inherited `Object.prototype` property:
      native functions print as V8 does, `__proto__` is `Object.prototype` itself. */
  function InheritedText(key: string): (r: Option<string>)
    ensures r.Some? <==> IsObjectPrototypeName(key)
  {
    if key == "constructor" then Some("function Object() { [native code] }")
    else if key == "__proto__" then Some("[object Object]")
    else if key in ObjectPrototypeMethods then Some("function " + key + "() { [native code] }")
    else None
  }

  /** `${obj[key]}` for an object literal `obj` whose own properties are the string-valued `own`:
      the own value, else the inherited member's text, else `undefined`. */
  function PropertyText(own: map<string, string>, key: string): (r: string)
    ensures key in own ==> r == own[key]
    ensures key !in own && IsObjectPrototypeName(key) ==> r == InheritedText(key).value
    ensures key !in own && !IsObjectPrototypeName(key) ==> r == "undefined"
  {
    if key in own then own[key]
    else match InheritedText(key)
      case Some(t) => t
      case None => "undefined"
  }
}
