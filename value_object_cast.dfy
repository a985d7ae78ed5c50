/** ValueObjectCast: the Eloquent attribute cast bound to one value-object
    class. `get` turns a stored primitive into an instance; `set` turns an
    instance or a raw value back into the primitive to store. The model, the
    sibling attributes and the database are not modelled; `json` is PHP's
    `json_encode`, which `set` needs only to interpolate a value object into
    its error message. */
module ValueObjectCast {
  import opened Wrappers
  import opened Php
  import opened BaseValueObject

  /** A configured cast: `$valueObjectClass`, assigned once by the constructor. */
  datatype Cast = Cast(target: ClassRef)

  /** A cast that `__construct` accepted: its class implements ValueObject. */
  type ConfiguredCast = c: Cast | c.target.isValueObject
    witness Cast(ClassRef("", true, v => Err(InvalidArgument(""))))

  const ConfigErrorMessage: string := "The provided class must implement " + ValueObjectInterface + "."

  /** The text before the attribute key in `set`'s re-raised message. */
  const WritePrefix: string := "Invalid value for "

  /** `__construct($valueObjectClass)`: refuses a class that does not
      implement ValueObject, otherwise keeps the class unchanged. */
  function New(c: ClassRef): (r: Result<ConfiguredCast, Exception>)
    ensures r.Ok? <==> c.isValueObject
    ensures r.Ok? ==> r.value.target == c
    ensures r.Err? ==> r.error == InvalidArgument(ConfigErrorMessage)
  {
    if !c.isValueObject then Err(InvalidArgument(ConfigErrorMessage))
    else Ok(Cast(c))
  }

  /** `$value instanceof $this->valueObjectClass`. */
  predicate IsInstanceOf(v: Value, c: ClassRef)
  {
    v.VObj? && v.vo.cls == c.name
  }

  /** `get`: null stays null; anything else goes through `make`, whose
      exception propagates as it is. */
  function Get(cast: ConfiguredCast, key: string, v: Value): (r: Result<Option<Instance>, Exception>)
    ensures v.Null? ==> r == Ok(None)
    ensures !v.Null? ==> (r.Ok? <==> cast.target.construct(v).Ok?)
    ensures !v.Null? && r.Ok? ==> r.value == Some(Instance(cast.target.name, cast.target.construct(v).value))
    ensures !v.Null? && r.Err? ==> r.error == cast.target.construct(v).error
  {
    if v.Null? then Ok(None)
    else
      match Make(cast.target, v)
      case Ok(o) => Ok(Some(o))
      case Err(e) => Err(e)
  }

  /** The message `set` re-raises a rejected raw value with. */
  function WriteErrorMessage(key: string, shown: string, original: string): string
  {
    WritePrefix + key + ": " + shown + ". " + original
  }

  /** `set`: null stays null; an instance of the cast's class yields its
      `value()` untouched; any other value is validated through `make` and
      its `value()` is stored. An InvalidArgumentException from `make` is
      re-raised naming the key and the value; building that message converts
      the value to a string, which throws for an object without
      `__toString`. Other exceptions from `make` propagate as they are. */
  function Set(json: Value -> string, cast: ConfiguredCast, key: string, v: Value): (r: Result<Value, Exception>)
    ensures v.Null? ==> r == Ok(Null)
    ensures IsInstanceOf(v, cast.target) ==> r == Ok(v.vo.raw)
    ensures !v.Null? && !IsInstanceOf(v, cast.target) ==> (r.Ok? <==> cast.target.construct(v).Ok?)
    ensures !v.Null? && !IsInstanceOf(v, cast.target) && r.Ok? ==> r.value == cast.target.construct(v).value
    ensures (!v.Null? && !IsInstanceOf(v, cast.target) && cast.target.construct(v).Err?
             && !cast.target.construct(v).error.InvalidArgument?)
            ==> r == Err(cast.target.construct(v).error)
    ensures (!v.Null? && !IsInstanceOf(v, cast.target) && cast.target.construct(v).Err?
             && cast.target.construct(v).error.InvalidArgument?)
            ==> r.Err? && (r.error.InvalidArgument? <==> StringConversion(json, v).Ok?)
  {
    if v.Null? then Ok(Null)
    else if IsInstanceOf(v, cast.target) then Ok(v.vo.raw)
    else
      match Make(cast.target, v)
      case Ok(o) => Ok(o.raw)
      case Err(InvalidArgument(m)) =>
        (match StringConversion(json, v)
         case Ok(shown) => Err(InvalidArgument(WriteErrorMessage(key, shown, m)))
         case Err(e) => Err(e))
      case Err(e) => Err(e)
  }

  // ---------------------------------------------------------------------
  // Message attribution

  /** `t` occurs in `s` starting at index `i`. */
  predicate OccursAt(t: string, s: string, i: nat)
  {
    i + |t| <= |s| && s[i..i + |t|] == t
  }

  /** `t` occurs somewhere in `s`. */
  ghost predicate Contains(s: string, t: string)
  {
    exists i: nat :: OccursAt(t, s, i)
  }

  /** The re-raised message starts with the fixed prefix, then names the key
      and the offending value, and ends with the original message. */
  lemma WriteErrorMessageAttributes(key: string, shown: string, original: string)
    ensures var msg := WriteErrorMessage(key, shown, original);
      && OccursAt(WritePrefix, msg, 0)
      && OccursAt(key, msg, |WritePrefix|)
      && OccursAt(shown, msg, |WritePrefix| + |key| + 2)
      && OccursAt(original, msg, |msg| - |original|)
  {
  }

  /** A raw value rejected by the constructor with an InvalidArgumentException
      makes `set` fail with an InvalidArgumentException whose message names
      the attribute key, the value as a string and the original message. */
  lemma SetRejectionNamesField(json: Value -> string, cast: ConfiguredCast, key: string, v: Value, m: string)
    requires !v.Null? && !IsInstanceOf(v, cast.target)
    requires cast.target.construct(v) == Err(InvalidArgument(m))
    requires StringConversion(json, v).Ok?
    ensures Set(json, cast, key, v).Err? && Set(json, cast, key, v).error.InvalidArgument?
    ensures var msg := Set(json, cast, key, v).error.message;
      Contains(msg, key) && Contains(msg, StringConversion(json, v).value) && Contains(msg, m)
  {
    var shown := StringConversion(json, v).value;
    var msg := WriteErrorMessage(key, shown, m);
    assert Set(json, cast, key, v) == Err(InvalidArgument(msg));
    WriteErrorMessageAttributes(key, shown, m);
  }

  /** A rejected object without `__toString` loses the attribution: building
      the message itself throws. */
  lemma SetRejectionOfPlainObject(json: Value -> string, cast: ConfiguredCast, key: string, cls: ClassName, props: seq<(string, Value)>, m: string)
    requires cast.target.construct(Obj(cls, props, None)) == Err(InvalidArgument(m))
    ensures Set(json, cast, key, Obj(cls, props, None)) == Err(Error("Object of class " + cls + " could not be converted to string"))
  {
  }

  // ---------------------------------------------------------------------
  // What `get` and `set` never consult

  /** Reading null never calls `make`: the result does not depend on the class. */
  lemma GetNullNeverConstructs(cast1: ConfiguredCast, cast2: ConfiguredCast, key: string)
    ensures Get(cast1, key, Null) == Get(cast2, key, Null) == Ok(None)
  {
  }

  /** Writing null or an instance of the cast's class never calls `make`: the
      result does not depend on the constructor. */
  lemma SetNeverConstructsInstances(json: Value -> string, cast1: ConfiguredCast, cast2: ConfiguredCast, key: string, v: Value)
    requires cast1.target.name == cast2.target.name
    requires v.Null? || IsInstanceOf(v, cast1.target)
    ensures Set(json, cast1, key, v) == Set(json, cast2, key, v)
  {
  }

  // ---------------------------------------------------------------------
  // Round trips

  /** The class's constructor reproduces a value it has already accepted. */
  ghost predicate Stable(c: ClassRef)
  {
    forall v :: c.construct(v).Ok? ==> c.construct(c.construct(v).value) == c.construct(v)
  }

  /** An instance its class's constructor would build from its own value. */
  predicate ValidInstance(c: ClassRef, o: Instance)
  {
    o.cls == c.name && c.construct(o.raw) == Ok(o.raw)
  }

  /** Every instance `make` builds for a stable class is valid. */
  lemma MadeInstancesAreValid(c: ClassRef, v: Value)
    requires Stable(c)
    requires Make(c, v).Ok?
    ensures ValidInstance(c, Make(c, v).value)
  {
  }

  /** Writing a valid instance stores exactly its `value()`, and reading that
      back gives an object equal to the original (a null `value()` reads back
      as null instead). */
  lemma RoundTripInstance(json: Value -> string, cast: ConfiguredCast, key: string, o: Instance)
    requires ValidInstance(cast.target, o)
    ensures Set(json, cast, key, VObj(o)) == Ok(o.raw)
    ensures !o.raw.Null? ==> Get(cast, key, o.raw) == Ok(Some(o))
    ensures !o.raw.Null? ==> Equals(Get(cast, key, o.raw).value.value, o)
    ensures o.raw.Null? ==> Get(cast, key, o.raw) == Ok(None)
  {
  }

  /** For a stable class, whatever `set` stores reads back as the object
      `make` would build from the value that was written. */
  lemma RoundTripRaw(json: Value -> string, cast: ConfiguredCast, key: string, v: Value)
    requires Stable(cast.target)
    requires !v.Null? && !IsInstanceOf(v, cast.target)
    requires Set(json, cast, key, v).Ok?
    ensures var stored := Set(json, cast, key, v).value;
      !stored.Null? ==> Get(cast, key, stored) == Get(cast, key, v)
  {
    var stored := Set(json, cast, key, v).value;
    assert cast.target.construct(v).Ok?;
    assert cast.target.construct(stored) == cast.target.construct(v);
  }

  /** Conversely, an instance of the cast's class with a non-null `value()`
      that reads back as itself after being written is valid. */
  lemma RoundTripOnlyIfValid(json: Value -> string, cast: ConfiguredCast, key: string, o: Instance)
    requires o.cls == cast.target.name && !o.raw.Null?
    requires Get(cast, key, Set(json, cast, key, VObj(o)).value) == Ok(Some(o))
    ensures ValidInstance(cast.target, o)
  {
  }
}
