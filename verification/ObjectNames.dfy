/**
 Names that every object answers to without having them: the functions objects inherit, and the name of the
 prototype itself. Where the runtime asks a plain object for a name a caller chose, they are found there.
 */
module ObjectNames {
  const PROTOTYPE := "__proto__"

  /** An inherited function stands under this name: it is `in` every object and never reads as undefined. */
  predicate IsInherited(name: string) {
    name in {"constructor", "hasOwnProperty", "isPrototypeOf", "propertyIsEnumerable", "toLocaleString", "toString",
             "valueOf", "__defineGetter__", "__defineSetter__", "__lookupGetter__", "__lookupSetter__"}
  }
}
