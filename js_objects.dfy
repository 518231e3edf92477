/** Plain JavaScript objects used as dictionaries (`Record<string, T>`). */
module JsObjects {

  /** The property names every JavaScript object inherits from `Object.prototype`.
      Indexing a plain object literal with one of them yields a function or an
      object, which is truthy, even though the literal has no such entry. */
  const ObjectPrototypeNames: set<string> := {
    "constructor", "toString", "toLocaleString", "valueOf", "hasOwnProperty",
    "isPrototypeOf", "propertyIsEnumerable", "__proto__", "__defineGetter__",
    "__defineSetter__", "__lookupGetter__", "__lookupSetter__"
  }
}
