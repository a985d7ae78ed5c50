# laravel-value-objects: the value-object cast, modelled in Dafny

This project models the core of `laravel-value-objects`, an extension for Laravel's
Eloquent ORM. It lets a database column read as a typed, validated value object
instead of a raw primitive. The model covers three parts of the package:

- `ValueObjectCast` (module `ValueObjectCast`). The attribute cast is bound to one
  value-object class. `get` turns a stored primitive into an instance. `set` turns an
  instance, or a raw value it validates, back into the primitive to store.
- `BaseValueObject` (module `BaseValueObject`). `make` is `new static($value)`, so it
  forwards to the concrete constructor. `__toString`, `toString`, `jsonSerialize` and
  `toJson` are built on `value()` alone. PHP's `equals` compares every property
  loosely; the model defines `Equals` as same class plus equal `value()`, and
  `notEquals` as its negation.
- `TestGender` (module `TestGender`), the value object of the feature tests. It accepts
  only `"m"` or `"w"` and has a label mapping. Module `ValueObjectCastTest` restates the
  feature tests as lemmas about `get` and `set` on a `gender` attribute.

PHP values are the datatype `Php.Value`: null, bool, int, string, array, plain or
Stringable object, and value-object instance. Thrown exceptions are `Err` results.
A class-string is a `ClassRef`: the class name, whether it implements the
`ValueObject` contract, and what its constructor does with an argument. PHP's
`json_encode` is a function parameter `json`, and every property holds for any
encoder except `JsonSerializeUnwraps`. That lemma assumes an encoder that serialises a
JsonSerializable object through its `jsonSerialize()`. `Decimal` models PHP's integer-to-string conversion.

Three behaviours of the code as written are worth stating:

- `set` re-raises only `InvalidArgumentException`. Take a raw value that the
  constructor refuses with another exception, such as the `TypeError` that TestGender's
  `string` parameter raises for an array or an object without `__toString` (`set`
  never passes null to the constructor: it returns null first).
  That exception leaves `set` without naming the attribute (`ArrayRejectedUnattributed`).
- Building `set`'s message converts the value to a string. For an object without
  `__toString` this throws an `Error` in place of the attributed exception
  (`SetRejectionOfPlainObject`).
- Write-then-read gives back an equal object exactly when the class accepts the
  instance's own `value()` unchanged (`ValidInstance`) and that value is not null
  (`RoundTripInstance` for the "if" direction, `RoundTripOnlyIfValid` for the "only
  if" direction). A null `value()` is stored as null and reads back as null.

## Model

| member | source | states |
|---|---|---|
| `BaseValueObject.Make` | src/ValueObjects/BaseValueObject.php:25-28 | `make` succeeds exactly when the constructor accepts the value; the instance has the class's name and the value the constructor stored; otherwise the constructor's exception |
| `BaseValueObject.MagicToString` | src/ValueObjects/BaseValueObject.php:33-44 | `__toString()`: a Stringable or scalar raw value gives PHP's `(string)` of it, anything else its JSON encoding; `StringableTier`, `ScalarTier` and `JsonTier` spell out each tier |
| `BaseValueObject.ToString` | src/ValueObjects/BaseValueObject.php:67-70 | `toString()` is what `(string)` of the value object gives; `ToStringIsAlias` states it equals `__toString()` |
| `BaseValueObject.JsonSerialize` | src/ValueObjects/BaseValueObject.php:49-52 | `jsonSerialize()`; no contract of its own, `JsonSerializeUnwraps` states it returns `value()` |
| `BaseValueObject.ToJson` | src/ValueObjects/BaseValueObject.php:59-62 | `toJson()`; no contract of its own, `JsonSerializeUnwraps` and `EqualsRespectsDerived` state its properties |
| `BaseValueObject.Equals` | src/ValueObjects/BaseValueObject.php:86-89 | `equals()`; no contract of its own, `EqualsIsStructural`, `EqualsIsEquivalence` and `EqualsRespectsDerived` state its properties |
| `BaseValueObject.NotEquals` | src/ValueObjects/BaseValueObject.php:96-99 | `notEquals()`; no contract of its own, `NotEqualsNegates` states it is the negation of `equals()` |
| `BaseValueObject.StringConversion` | src/ValueObjects/BaseValueObject.php:36-41 | PHP's `(string)` conversion fails exactly for an object without `__toString` |
| `BaseValueObject.StringableTier` | src/ValueObjects/BaseValueObject.php:36-38 | for a raw object with `__toString`, the string form is that object's string; a nested value object contributes its own `__toString` |
| `BaseValueObject.ScalarTier` | src/ValueObjects/BaseValueObject.php:39-41 | for a scalar raw value: a string is returned as is, an int reads back as the same int, `true`/`false` give "1"/"" |
| `BaseValueObject.JsonTier` | src/ValueObjects/BaseValueObject.php:43 | null, arrays and objects without `__toString` (and only those) fall through to the JSON encoding of the raw value |
| `BaseValueObject.JsonOnlyForStructured` | src/ValueObjects/BaseValueObject.php:33-44 | the string form never depends on the JSON encoder when the innermost raw value is Stringable or scalar |
| `BaseValueObject.StringFormIgnoresClass` | src/ValueObjects/BaseValueObject.php:33-44 | the string form is built on `value()` only: two instances with the same raw value print the same |
| `BaseValueObject.ToStringIsAlias` | src/ValueObjects/BaseValueObject.php:67-70 | `toString()` equals `__toString()`, which is also what `(string)` of the object gives |
| `BaseValueObject.JsonSerializeUnwraps` | src/ValueObjects/BaseValueObject.php:49-52 | `jsonSerialize()` is `value()`; under an encoder that honours JsonSerializable a value object encodes as its raw value, and `toJson()` agrees |
| `BaseValueObject.EqualsIsStructural` | src/ValueObjects/BaseValueObject.php:86-89 | `equals` holds iff same class and equal raw value, i.e. structural equality |
| `BaseValueObject.EqualsIsEquivalence` | src/ValueObjects/BaseValueObject.php:86-89 | `equals` is reflexive, symmetric and transitive |
| `BaseValueObject.EqualsRespectsDerived` | src/ValueObjects/BaseValueObject.php:86-89 | equal objects have the same string form, `jsonSerialize` and `toJson` |
| `BaseValueObject.NotEqualsNegates` | src/ValueObjects/BaseValueObject.php:96-99 | `notEquals` is exactly `!equals`, so it is irreflexive |
| `Decimal.NatString` | src/ValueObjects/BaseValueObject.php:40 | a natural prints as a non-empty digit string with no leading zero |
| `Decimal.IntString` | src/ValueObjects/BaseValueObject.php:40 | `(string)` of an int is non-empty, digits after an optional leading minus on negatives |
| `Decimal.IntStringRoundTrip` | src/ValueObjects/BaseValueObject.php:40 | parsing `(string)` of an int gives back the int |
| `Decimal.IntStringInjective` | src/ValueObjects/BaseValueObject.php:40 | distinct ints print differently |
| `ValueObjectCast.New` | src/Casts/ValueObjectCast.php:28-36 | the constructor fails with the configuration InvalidArgumentException iff the class is not a ValueObject; otherwise it stores the class unchanged |
| `ValueObjectCast.Get` | src/Casts/ValueObjectCast.php:43-51 | null reads as null; any other value reads as the instance `make` builds, and `make`'s exception propagates unwrapped |
| `ValueObjectCast.Set` | src/Casts/ValueObjectCast.php:58-76 | null writes null; an instance of the class writes its `value()`; another value writes the constructor's stored value iff it accepts it; non-InvalidArgument exceptions propagate; an InvalidArgument is re-raised as InvalidArgument iff the value converts to a string |
| `ValueObjectCast.IsInstanceOf` | src/Casts/ValueObjectCast.php:65 | `$value instanceof $this->valueObjectClass`; no contract of its own, `Set` and `SetNeverConstructsInstances` state the pass-through it selects |
| `ValueObjectCast.WriteErrorMessage` | src/Casts/ValueObjectCast.php:74 | the re-raised message; no contract of its own, `WriteErrorMessageAttributes` states where key, value and original message sit in it |
| `ValueObjectCast.WriteErrorMessageAttributes` | src/Casts/ValueObjectCast.php:74 | the re-raised message holds the fixed prefix, the key, the value's string and, at its end, the original message |
| `ValueObjectCast.SetRejectionNamesField` | src/Casts/ValueObjectCast.php:71-75 | a raw value refused with InvalidArgument makes `set` fail with an InvalidArgument whose message contains the key, the value and the original message |
| `ValueObjectCast.SetRejectionOfPlainObject` | src/Casts/ValueObjectCast.php:74 | a refused object without `__toString` makes `set` throw the string-conversion Error instead |
| `ValueObjectCast.GetNullNeverConstructs` | src/Casts/ValueObjectCast.php:45-47 | reading null gives null whatever the class, so `make` is not consulted |
| `ValueObjectCast.SetNeverConstructsInstances` | src/Casts/ValueObjectCast.php:60-67 | writing null or an instance of the class does not depend on the constructor |
| `ValueObjectCast.MadeInstancesAreValid` | src/Casts/ValueObjectCast.php:50 | for a class that re-accepts its stored values, every instance `make` builds is valid |
| `ValueObjectCast.RoundTripInstance` | src/Casts/ValueObjectCast.php:45-67 | writing a valid instance stores exactly its `value()`, and reading that back gives an equal object (null reads back as null) |
| `ValueObjectCast.RoundTripOnlyIfValid` | src/Casts/ValueObjectCast.php:45-67 | an instance of the cast's class with a non-null `value()` that reads back as itself after being written is one its constructor rebuilds from its own `value()` |
| `ValueObjectCast.RoundTripRaw` | src/Casts/ValueObjectCast.php:45-72 | for a class that re-accepts its stored values, what `set` stores for a raw value reads back as `make` of that raw value |
| `TestGender.CoerceStringParam` | tests/Feature/ValueObjectCastTest.php:16 | the `string $value` parameter accepts scalars and Stringable objects with PHP's string conversion, and raises a TypeError for anything else |
| `TestGender.InvalidGenderMessage` | tests/Feature/ValueObjectCastTest.php:19 | the constructor's rejection message; no contract of its own, `ValueIsArgument` states that a rejected string raises it |
| `TestGender.Construct` | tests/Feature/ValueObjectCastTest.php:16-22 | the constructor succeeds iff the coerced argument is "m" or "w", stores that string, and otherwise throws the documented InvalidArgumentException (or the parameter's TypeError) |
| `TestGender.ScalarAcceptedIffMOrW` | tests/Feature/ValueObjectCastTest.php:16-20 | among scalars exactly the strings "m" and "w" are accepted; no int or bool converts to either |
| `TestGender.ValueIsArgument` | tests/Feature/ValueObjectCastTest.php:16-27 | `value()` returns the accepted constructor argument unchanged; a rejected string gives the InvalidArgumentException naming it |
| `TestGender.MadeIsGender` | tests/Feature/ValueObjectCastTest.php:16-22 | every instance `make` builds is a TestGender holding "m" or "w" |
| `TestGender.ClassIsStable` | tests/Feature/ValueObjectCastTest.php:16-27 | the constructor re-accepts what it stored, unchanged, so the cast's round trips apply |
| `TestGender.Label` | tests/Feature/ValueObjectCastTest.php:29-36 | `getLabel()` is "Male" iff the value is "m", "Female" iff it is "w", and "Unknown" for anything else |
| `TestGender.LabelOfGender` | tests/Feature/ValueObjectCastTest.php:29-36 | on valid instances `getLabel` is never "Unknown": "Male" iff "m", "Female" iff "w" |
| `ValueObjectCastTest.GenderCast` | tests/Feature/ValueObjectCastTest.php:45-47 | the `gender` cast constructed with TestGender succeeds |
| `ValueObjectCastTest.CastFromDatabase` | tests/Feature/ValueObjectCastTest.php:63-66 | reading "m" gives a TestGender with value "m", label "Male" and string form "m" |
| `ValueObjectCastTest.CastToDatabase` | tests/Feature/ValueObjectCastTest.php:76-83 | writing `new TestGender('w')` stores "w", which reads back as that same instance |
| `ValueObjectCastTest.RawValueGetsCast` | tests/Feature/ValueObjectCastTest.php:93-98 | writing raw "m" stores "m", which reads back as a TestGender with value "m" |
| `ValueObjectCastTest.NullHandled` | tests/Feature/ValueObjectCastTest.php:104-119 | null reads and writes as null, and an assigned instance writes and reads back unchanged |
| `ValueObjectCastTest.InvalidValueRejected` | tests/Feature/ValueObjectCastTest.php:130-131 | writing "x" fails with an InvalidArgumentException naming `gender`, "x" and the constructor's message; reading "x" fails with the constructor's exception |
| `ValueObjectCastTest.ArrayRejectedUnattributed` | src/Casts/ValueObjectCast.php:71-75 | writing an array to `gender` fails with the constructor's TypeError, unwrapped, exactly as reading it does |

## Left out

- `src/Commands/MakeValueObjectCommand.php` (stub-based file generation) and `src/LaravelValueObjectsServiceProvider.php` (command registration) are console and filesystem glue. They are not part of this model.
- `tests/TestCase.php` and the `TestUser` model's persistence (`create`, `find`, `save`, `getRawOriginal`) are left out. The database is abstracted away: what `set` returns is what is stored, and what `get` returns is what is read back.
- `Get`, `Set`: the Eloquent model and the sibling-attributes arguments are not modelled because the cast never reads them.
- `Set`, `IsInstanceOf`: `instanceof` is modelled as an exact, case-sensitive class-name match. PHP compares class names case-insensitively, and an instance of a subclass of the target class would pass through; the model treats both as raw values, because class hierarchies and name folding are not modelled.
- `StringableTier`: a nested value object is rendered with BaseValueObject's `__toString`. A value-object class that overrides `__toString`, and a ValueObject implementer that does not extend BaseValueObject, are not modelled.
- `StringConversion`: `(string)` and `"{$value}"` of a value object use BaseValueObject's `__toString`, so an overridden `__toString` is not modelled. The same holds for TestGender's `string` parameter (`CoerceStringParam`).
- `JsonSerializeUnwraps`: a value object that overrides `jsonSerialize` is not modelled.
- `New`: `is_subclass_of` is given as the `isValueObject` flag of the class reference. Class lookup and autoloading are not modelled.
- `Equals`: equality is strict structural equality of the class and `value()`, not PHP's loose `==` on properties. Properties other than the one `value()` returns are not modelled.
- `MagicToString`, `ToJson`: `json_encode` is an uninterpreted parameter. Its failure value `false` and `toJson`'s option flags are not modelled.
- `StringConversion`: converting an array to a string gives "Array" without the warning PHP emits.
- Floats and resources are not modelled, so neither is PHP's float-to-string formatting. Integers are unbounded; PHP's are 64-bit.
- `__get` (src/ValueObjects/BaseValueObject.php:75-78) is reflective property access. It is not part of this model.
