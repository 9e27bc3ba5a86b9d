/** Blade values and the primitive operations the virtual machine applies to them. */
module Values {
  import opened Basics

  /** The tagged-union value. `Obj` is a reference to a heap object. Compiled code sees strings
      only as values, and compares them by content because they are interned, so there a string
      is a `Str`; the collector sees strings as objects like any other. */
  datatype Value =
    | Nil
    | Bool(b: bool)
    | Number(n: real)
    | Str(s: string)
    | Obj(ref: nat)
    | Empty

  /** What the host supplies and the compiler never looks at: arithmetic that is not
      modelled, whether an object counts as false, and the built-in globals. */
  datatype World = World(
    arith: (int, Value, Value) -> Option<Value>,
    bitNot: real -> real,
    falsy: nat -> bool,
    builtins: map<string, Value>
  )

  /** `is_false`: negative numbers and empty strings are false, zero is true. */
  predicate IsFalse(w: World, v: Value) {
    match v
    case Bool(b) => !b
    case Nil => true
    case Empty => true
    case Number(n) => n < 0.0
    case Str(s) => |s| < 1
    case Obj(r) => w.falsy(r)
  }

  predicate Numeric(v: Value) {
    v.Number? || v.Bool?
  }

  /** Booleans take part in arithmetic as 1 and 0. */
  function AsReal(v: Value): real
    requires Numeric(v)
  {
    match v
    case Number(n) => n
    case Bool(b) => if b then 1.0 else 0.0
  }
}
