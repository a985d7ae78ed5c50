/** The PHP values and exceptions that flow through an attribute cast. */
module Php {
  import opened Wrappers

  /** A fully qualified PHP class name, as a class-string. */
  type ClassName = string

  /** A PHP array key: arrays are ordered maps keyed by int or string. */
  datatype Key = IntKey(i: int) | StrKey(s: string)

  /** A PHP `mixed` value (floats and resources are not modelled). */
  datatype Value =
    | Null
    | Bool(b: bool)
    | Int(i: int)
    | Str(s: string)
    | Arr(entries: seq<(Key, Value)>)
      /** An object that is not a value object: `cls` is never the name of a
          value-object class, whose instances are `VObj`. `rendered` is what its
          `__toString` returns, or `None` when its class has no `__toString`. */
    | Obj(cls: ClassName, props: seq<(string, Value)>, rendered: Option<string>)
      /** A value object (an instance of a BaseValueObject subclass). */
    | VObj(vo: Instance)

  /** A value-object instance: its concrete class and what its `value()` returns. */
  datatype Instance = Instance(cls: ClassName, raw: Value)

  /** The exceptions that can leave a cast. */
  datatype Exception =
    | InvalidArgument(message: string)  // InvalidArgumentException
    | TypeError(message: string)        // a parameter of the wrong type
    | Error(message: string)            // e.g. an object that cannot become a string

  /** PHP's `is_scalar` on the modelled values. */
  predicate IsScalar(v: Value)
  {
    v.Bool? || v.Int? || v.Str?
  }

  /** `is_object($v) && method_exists($v, '__toString')`; every value object
      is Stringable through the ValueObject contract. */
  predicate HasToString(v: Value)
  {
    v.VObj? || (v.Obj? && v.rendered.Some?)
  }

  /** The type name PHP reports in a TypeError for a value. */
  function TypeName(v: Value): string
  {
    match v
    case Null => "null"
    case Bool(_) => "bool"
    case Int(_) => "int"
    case Str(_) => "string"
    case Arr(_) => "array"
    case Obj(cls, _, _) => cls
    case VObj(o) => o.cls
  }
}
