/** The ValueObject contract and BaseValueObject. `make` forwards to the
    concrete constructor; the string and JSON forms are built on `value()`
    alone. PHP's `equals` compares every property loosely; here `Equals` is
    defined as the same class and an equal `value()`.
    `json` is PHP's `json_encode`, left uninterpreted as a parameter. */
module BaseValueObject {
  import opened Wrappers
  import opened Php
  import Decimal

  /** The interface every castable class must implement. */
  const ValueObjectInterface: ClassName := "MichaelRavedoni\\LaravelValueObjects\\Contracts\\ValueObject"

  /** A class-string as the cast holds it: the class name, whether
      `is_subclass_of($class, ValueObject::class)` holds, and what its
      constructor does with an argument: the value the new instance's
      `value()` will return, or the exception the constructor throws. */
  datatype ClassRef = ClassRef(name: ClassName, isValueObject: bool, construct: Value -> Result<Value, Exception>)

  /** `make($value)` is `new static($value)`. */
  function Make(c: ClassRef, v: Value): (r: Result<Instance, Exception>)
    ensures r.Ok? <==> c.construct(v).Ok?
    ensures r.Ok? ==> r.value.cls == c.name && r.value.raw == c.construct(v).value
    ensures r.Err? ==> r.error == c.construct(v).error
  {
    match c.construct(v)
    case Ok(raw) => Ok(Instance(c.name, raw))
    case Err(e) => Err(e)
  }

  /** PHP's `(string) $v`, which `"{$v}"` interpolation also performs. Only an
      object without `__toString` cannot be converted. */
  function StringConversion(json: Value -> string, v: Value): (r: Result<string, Exception>)
    ensures r.Err? <==> v.Obj? && v.rendered.None?
    decreases v, 1
  {
    match v
    case Null => Ok("")
    case Bool(b) => Ok(if b then "1" else "")
    case Int(i) => Ok(Decimal.IntString(i))
    case Str(s) => Ok(s)
    case Arr(_) => Ok("Array")
    case Obj(cls, _, rendered) =>
      if rendered.Some? then Ok(rendered.value)
      else Err(Error("Object of class " + cls + " could not be converted to string"))
    case VObj(o) => Ok(MagicToString(json, o))
  }

  /** `__toString()`: a Stringable raw value is converted by its own
      `__toString`, a scalar is cast to string, anything else is JSON-encoded. */
  function MagicToString(json: Value -> string, o: Instance): (r: string)
    ensures HasToString(o.raw) || IsScalar(o.raw) ==> StringConversion(json, o.raw) == Ok(r)
    ensures !HasToString(o.raw) && !IsScalar(o.raw) ==> r == json(o.raw)
    decreases o, 0
  {
    var value := o.raw;
    if HasToString(value) then StringConversion(json, value).value
    else if IsScalar(value) then StringConversion(json, value).value
    else json(value)
  }

  /** `toString()`, an alias of `__toString()`. */
  function ToString(json: Value -> string, o: Instance): (r: string)
    ensures StringConversion(json, VObj(o)) == Ok(r)
  {
    MagicToString(json, o)
  }

  /** `jsonSerialize()`: the raw value, unwrapped. */
  function JsonSerialize(o: Instance): Value
  {
    o.raw
  }

  /** `toJson()`: the JSON encoding of `jsonSerialize()` (encoder flags not modelled). */
  function ToJson(json: Value -> string, o: Instance): string
  {
    json(JsonSerialize(o))
  }

  /** `equals()`: same concrete class and structurally equal contents. */
  function Equals(a: Instance, b: Instance): bool
  {
    a.cls == b.cls && a.raw == b.raw
  }

  /** `notEquals()`: the negation of `equals()`. */
  function NotEquals(a: Instance, b: Instance): bool
  {
    !Equals(a, b)
  }

  // ---------------------------------------------------------------------
  // __toString: the three tiers

  /** First tier: a Stringable raw value supplies the string itself; a nested
      value object is rendered by its own `__toString`. */
  lemma StringableTier(json: Value -> string, o: Instance)
    requires HasToString(o.raw)
    ensures o.raw.Obj? ==> MagicToString(json, o) == o.raw.rendered.value
    ensures o.raw.VObj? ==> MagicToString(json, o) == MagicToString(json, o.raw.vo)
  {
  }

  /** Second tier: a scalar is cast to string; a string is returned as is, an
      integer as its decimal form, `true` as "1" and `false` as "". */
  lemma ScalarTier(json: Value -> string, o: Instance)
    requires IsScalar(o.raw)
    ensures o.raw.Str? ==> MagicToString(json, o) == o.raw.s
    ensures o.raw.Int? ==> Decimal.ParseInt(MagicToString(json, o)) == Some(o.raw.i)
    ensures o.raw.Bool? ==> MagicToString(json, o) == (if o.raw.b then "1" else "")
  {
    if o.raw.Int? {
      Decimal.IntStringRoundTrip(o.raw.i);
    }
  }

  /** Third tier: null, arrays and objects without `__toString` are JSON-encoded. */
  lemma JsonTier(json: Value -> string, o: Instance)
    requires !HasToString(o.raw) && !IsScalar(o.raw)
    ensures MagicToString(json, o) == json(o.raw)
    ensures o.raw.Null? || o.raw.Arr? || (o.raw.Obj? && o.raw.rendered.None?)
  {
  }

  /** The raw value at the bottom of a chain of nested value objects. */
  function Innermost(o: Instance): (v: Value)
    ensures !v.VObj?
    decreases o
  {
    if o.raw.VObj? then Innermost(o.raw.vo) else o.raw
  }

  /** The string form consults `json_encode` only when the innermost raw
      value is neither Stringable nor scalar. */
  lemma {:induction false} JsonOnlyForStructured(j1: Value -> string, j2: Value -> string, o: Instance)
    requires HasToString(Innermost(o)) || IsScalar(Innermost(o))
    ensures MagicToString(j1, o) == MagicToString(j2, o)
    decreases o
  {
    if o.raw.VObj? {
      JsonOnlyForStructured(j1, j2, o.raw.vo);
    }
  }

  /** The string form depends on the raw value only, never on the class. */
  lemma StringFormIgnoresClass(json: Value -> string, a: Instance, b: Instance)
    requires a.raw == b.raw
    ensures MagicToString(json, a) == MagicToString(json, b)
  {
  }

  /** `toString()` and `__toString()` agree everywhere. */
  lemma ToStringIsAlias(json: Value -> string, o: Instance)
    ensures ToString(json, o) == MagicToString(json, o)
    ensures StringConversion(json, VObj(o)) == Ok(ToString(json, o))
  {
  }

  // ---------------------------------------------------------------------
  // jsonSerialize / toJson

  /** An encoder that, like `json_encode`, serialises a JsonSerializable
      object through its `jsonSerialize()`. */
  ghost predicate HonoursJsonSerializable(json: Value -> string)
  {
    forall o: Instance :: json(VObj(o)) == json(JsonSerialize(o))
  }

  /** `jsonSerialize()` unwraps to `value()`, and `toJson()` agrees with
      encoding the object itself. That a value object embedded in a larger
      structure encodes as its raw value is the requires applied to `o`,
      restated here; only the `toJson()` clause is derived from it. */
  lemma JsonSerializeUnwraps(json: Value -> string, o: Instance)
    requires HonoursJsonSerializable(json)
    ensures JsonSerialize(o) == o.raw
    ensures json(VObj(o)) == json(o.raw)
    ensures ToJson(json, o) == json(VObj(o))
  {
  }

  // ---------------------------------------------------------------------
  // equals / notEquals

  /** Equality is exactly structural equality of class and contents. */
  lemma EqualsIsStructural(a: Instance, b: Instance)
    ensures Equals(a, b) <==> a.cls == b.cls && a.raw == b.raw
    ensures Equals(a, b) <==> a == b
  {
  }

  /** `equals` is an equivalence relation. */
  lemma EqualsIsEquivalence(a: Instance, b: Instance, c: Instance)
    ensures Equals(a, a)
    ensures Equals(a, b) ==> Equals(b, a)
    ensures Equals(a, b) && Equals(b, c) ==> Equals(a, c)
  {
  }

  /** Equal value objects are indistinguishable through every derived behaviour. */
  lemma EqualsRespectsDerived(json: Value -> string, a: Instance, b: Instance)
    requires Equals(a, b)
    ensures MagicToString(json, a) == MagicToString(json, b)
    ensures JsonSerialize(a) == JsonSerialize(b) && ToJson(json, a) == ToJson(json, b)
  {
  }

  /** `notEquals` is the strict negation of `equals`. */
  lemma NotEqualsNegates(a: Instance, b: Instance)
    ensures NotEquals(a, b) <==> !Equals(a, b)
    ensures !NotEquals(a, a)
  {
  }
}
