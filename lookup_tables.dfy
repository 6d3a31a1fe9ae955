/** `table[key] || fallback`: the idiom every analyzer uses for groups and radii. */
module LookupTables {

  /** A present entry wins unless it is 0, which JavaScript treats as missing. */
  function OrDefault(table: map<string, int>, key: string, fallback: int): (r: int)
    ensures key in table && table[key] != 0 ==> r == table[key]
    ensures key !in table || table[key] == 0 ==> r == fallback
  {
    if key in table && table[key] != 0 then table[key] else fallback
  }

  /**
   * The names every object literal inherits from `Object.prototype`. Each
   * reads as a function (or, for `__proto__`, an object), which is truthy.
   */
  const PrototypeKeys: set<string> := {"constructor", "hasOwnProperty", "isPrototypeOf", "propertyIsEnumerable",
    "toLocaleString", "toString", "valueOf", "__proto__", "__defineGetter__", "__defineSetter__",
    "__lookupGetter__", "__lookupSetter__"}

  /** What `table[key] || fallback` reads in JavaScript: a number, or a member every object inherits. */
  datatype Looked = Number(n: int) | Inherited(key: string)

  /** `table[key] || fallback` as written: an inherited member is truthy, so it is returned in place of the fallback. */
  function OrDefaultAsWritten(table: map<string, int>, key: string, fallback: int): (r: Looked)
    ensures r.Inherited? <==> key !in table && key in PrototypeKeys
    ensures r.Number? ==> r.n == OrDefault(table, key, fallback)
  {
    if key in table then Number(OrDefault(table, key, fallback))
    else if key in PrototypeKeys then Inherited(key)
    else Number(fallback)
  }
}
