/** The feature tests' scenarios for a `gender` attribute cast to TestGender,
    stated over `get` and `set` with the database abstracted away: what `set`
    returns is what the database stores, and what `get` returns is what the
    model attribute reads back. They hold for every JSON encoder. */
module ValueObjectCastTest {
  import opened Wrappers
  import opened Php
  import opened BaseValueObject
  import opened ValueObjectCast
  import TestGender

  const GenderKey: string := "gender"

  /** The cast the test model declares for `gender`. */
  function GenderCast(json: Value -> string): (cast: ConfiguredCast)
    ensures New(TestGender.Class(json)) == Ok(cast)
  {
    Cast(TestGender.Class(json))
  }

  /** Reading a stored "m" gives a TestGender whose value is "m", whose label
      is "Male" and whose string form is "m". */
  lemma CastFromDatabase(json: Value -> string)
    ensures var r := Get(GenderCast(json), GenderKey, Str("m"));
      && r.Ok? && r.value.Some?
      && r.value.value.cls == TestGender.Name
      && r.value.value.raw == Str("m")
      && TestGender.Label(r.value.value) == "Male"
      && MagicToString(json, r.value.value) == "m"
  {
  }

  /** Assigning `new TestGender('w')` stores "w", and reading it back gives a
      TestGender whose value is "w". */
  lemma CastToDatabase(json: Value -> string)
    ensures var made := Make(TestGender.Class(json), Str("w"));
      && made.Ok?
      && Set(json, GenderCast(json), GenderKey, VObj(made.value)) == Ok(Str("w"))
      && Get(GenderCast(json), GenderKey, Str("w")) == Ok(Some(made.value))
      && made.value.cls == TestGender.Name && made.value.raw == Str("w")
  {
  }

  /** Assigning the raw string "m" stores "m", and reading it back gives a
      TestGender whose value is "m". */
  lemma RawValueGetsCast(json: Value -> string)
    ensures Set(json, GenderCast(json), GenderKey, Str("m")) == Ok(Str("m"))
    ensures Get(GenderCast(json), GenderKey, Str("m")) == Ok(Some(Instance(TestGender.Name, Str("m"))))
  {
  }

  /** A null attribute reads as null and writes as null, before and after an
      instance has been assigned. */
  lemma NullHandled(json: Value -> string, o: Instance)
    requires TestGender.IsGender(o)
    ensures Get(GenderCast(json), GenderKey, Null) == Ok(None)
    ensures Set(json, GenderCast(json), GenderKey, VObj(o)) == Ok(o.raw)
    ensures Get(GenderCast(json), GenderKey, o.raw) == Ok(Some(o))
    ensures Set(json, GenderCast(json), GenderKey, Null) == Ok(Null)
  {
  }

  /** Assigning "x" fails with an InvalidArgumentException that names the
      attribute and the value, and carries the constructor's message; reading
      a stored "x" fails with the constructor's own exception. */
  lemma InvalidValueRejected(json: Value -> string)
    ensures Set(json, GenderCast(json), GenderKey, Str("x"))
      == Err(InvalidArgument(WriteErrorMessage(GenderKey, "x", TestGender.InvalidGenderMessage("x"))))
    ensures Contains(Set(json, GenderCast(json), GenderKey, Str("x")).error.message, GenderKey)
    ensures Get(GenderCast(json), GenderKey, Str("x")) == Err(InvalidArgument(TestGender.InvalidGenderMessage("x")))
  {
    var cast := GenderCast(json);
    var original := TestGender.InvalidGenderMessage("x");
    SetRejectionNamesField(json, cast, GenderKey, Str("x"), original);
  }

  /** Assigning an array is refused by the constructor's parameter type, and
      that TypeError leaves `set` without naming the attribute. */
  lemma ArrayRejectedUnattributed(json: Value -> string, entries: seq<(Key, Value)>)
    ensures Set(json, GenderCast(json), GenderKey, Arr(entries)).Err?
    ensures Set(json, GenderCast(json), GenderKey, Arr(entries)).error.TypeError?
    ensures Set(json, GenderCast(json), GenderKey, Arr(entries)).error == Get(GenderCast(json), GenderKey, Arr(entries)).error
  {
  }
}
