/** TestGender: the value object of the feature tests. Its constructor takes
    a `string` parameter (coercive typing mode) and accepts only "m" or "w". */
module TestGender {
  import opened Wrappers
  import opened Php
  import opened BaseValueObject
  import Decimal
  import ValueObjectCast

  const Name: ClassName := "MichaelRavedoni\\LaravelValueObjects\\Tests\\Feature\\TestGender"

  /** How PHP passes a value to the constructor's `string $value` parameter:
      strings as they are, ints and bools converted, Stringable objects
      through `__toString`; null, arrays and other objects are a TypeError.
      The TypeError's text is shortened: PHP goes on with ", called in ... on
      line ...", which no contract here depends on. */
  function CoerceStringParam(json: Value -> string, v: Value): (r: Result<string, Exception>)
    ensures r.Ok? <==> IsScalar(v) || HasToString(v)
    ensures r.Ok? ==> StringConversion(json, v) == r
    ensures r.Err? ==> r.error.TypeError?
  {
    if IsScalar(v) || HasToString(v) then StringConversion(json, v)
    else Err(TypeError(Name + "::__construct(): Argument #1 ($value) must be of type string, " + TypeName(v) + " given"))
  }

  /** The message the constructor throws for a string other than "m" or "w". */
  function InvalidGenderMessage(s: string): string
  {
    "Invalid gender value: " + s + ". Must be 'm' or 'w'."
  }

  /** `new TestGender($value)`: what `value()` of the new instance returns, or
      the exception the constructor throws. */
  function Construct(json: Value -> string, v: Value): (r: Result<Value, Exception>)
    ensures r.Ok? ==> r.value == Str("m") || r.value == Str("w")
    ensures r.Ok? <==> CoerceStringParam(json, v).Ok? && CoerceStringParam(json, v).value in {"m", "w"}
    ensures r.Ok? ==> r.value == Str(CoerceStringParam(json, v).value)
    ensures r.Err? ==> (r.error.InvalidArgument? <==> IsScalar(v) || HasToString(v))
    ensures r.Err? && r.error.InvalidArgument? ==>
              r.error.message == InvalidGenderMessage(CoerceStringParam(json, v).value)
  {
    match CoerceStringParam(json, v)
    case Err(e) => Err(e)
    case Ok(s) =>
      if s == "m" || s == "w" then Ok(Str(s))
      else Err(InvalidArgument(InvalidGenderMessage(s)))
  }

  /** `TestGender::class` as a class-string the cast can be configured with. */
  function Class(json: Value -> string): (c: ClassRef)
    ensures c.name == Name && c.isValueObject
  {
    ClassRef(Name, true, v => Construct(json, v))
  }

  /** `getLabel()`. */
  function Label(o: Instance): (r: string)
    ensures r == "Male" <==> o.raw == Str("m")
    ensures r == "Female" <==> o.raw == Str("w")
    ensures r == "Unknown" <==> o.raw != Str("m") && o.raw != Str("w")
  {
    match o.raw
    case Str("m") => "Male"
    case Str("w") => "Female"
    case _ => "Unknown"
  }

  /** The instances the constructor can produce. */
  predicate IsGender(o: Instance)
  {
    o.cls == Name && (o.raw == Str("m") || o.raw == Str("w"))
  }

  /** Among scalars the constructor accepts exactly the strings "m" and "w":
      no integer or boolean converts to either. */
  lemma ScalarAcceptedIffMOrW(json: Value -> string, v: Value)
    requires IsScalar(v)
    ensures Construct(json, v).Ok? <==> v == Str("m") || v == Str("w")
  {
  }

  /** `value()` returns the accepted constructor argument unchanged, and a
      rejected string raises the documented InvalidArgumentException. */
  lemma ValueIsArgument(json: Value -> string, s: string)
    ensures Construct(json, Str(s)).Ok? <==> s == "m" || s == "w"
    ensures Construct(json, Str(s)).Ok? ==> Construct(json, Str(s)).value == Str(s)
    ensures Construct(json, Str(s)).Err? ==> Construct(json, Str(s)) == Err(InvalidArgument(InvalidGenderMessage(s)))
  {
  }

  /** Every instance `make` builds is a valid gender. */
  lemma MadeIsGender(json: Value -> string, v: Value)
    requires Make(Class(json), v).Ok?
    ensures IsGender(Make(Class(json), v).value)
  {
  }

  /** The constructor re-accepts what it stored, unchanged. */
  lemma ClassIsStable(json: Value -> string)
    ensures ValueObjectCast.Stable(Class(json))
  {
  }

  /** On valid instances the label is never "Unknown", and it determines the value. */
  lemma LabelOfGender(o: Instance)
    requires IsGender(o)
    ensures Label(o) != "Unknown"
    ensures Label(o) == "Male" <==> o.raw == Str("m")
    ensures Label(o) == "Female" <==> o.raw == Str("w")
  {
  }
}
