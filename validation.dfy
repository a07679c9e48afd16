/**
 * The client-side validators: leaf rules that either pass or throw a
 * ValidationError, and the Validator combinator that runs its child
 * validations on a model and requires all of them, or at least one of them,
 * to pass. `FromJson` builds a validator tree from its JSON description.
 *
 * A validation's `validate(value, model)` returning true is `Pass`; a thrown
 * error is `Fail(error)`.
 */
module Validation {
  import opened Wrappers
  import opened JsValues

  /** The message of the error a failing Validator throws. */
  const ErrorsOccurred: string := "The following errors occurred:"

  /**
   * A validation. Every one has the `name` of the model property it checks
   * and the `failedMessage` its error carries. GreaterThan and LessThan keep
   * their settings object, which they read only when validating.
   */
  datatype Validation =
    | EqualTo(name: Value, failedMessage: Value, equalTo: Value)
    | EqualToModelProperty(name: Value, failedMessage: Value, propertyName: Value)
    | ExactLength(name: Value, failedMessage: Value, exactLength: Value)
    | HasValue(name: Value, failedMessage: Value)
    | GreaterThan(name: Value, failedMessage: Value, settings: Value)
    | LessThan(name: Value, failedMessage: Value, settings: Value)
    | Validator(name: Value, failedMessage: Value, validateAll: Value, validations: seq<Validation>)

  datatype Verdict = Pass | Fail(error: JsError)

  /** The error a leaf rule throws: its name and failed message, with no sub-errors. */
  function LeafError(v: Validation): JsError
  {
    ValidationError(v.name, v.failedMessage, [])
  }

  function Check(passes: bool, v: Validation): Verdict
  {
    if passes then Pass else Fail(LeafError(v))
  }

  /**
   * The verdict of `GreaterThan.validate`: a pass when the value is above the
   * bound, or reaches it while settings.equalTo is truthy; settings that are
   * undefined or null raise a TypeError.
   */
  function GreaterThanVerdict(v: Validation, value: Value): Verdict
    requires v.GreaterThan?
  {
    if IsNullish(v.settings) then Fail(TypeError)
    else
      var orEqual := Get(v.settings, "equalTo").value;
      var bound := Get(v.settings, "greaterThan").value;
      Check((Truthy(orEqual) && Ge(value, bound)) || Gt(value, bound), v)
  }

  /**
   * The verdict of `LessThan.validate`: a pass when the value is below the
   * bound, or reaches it while settings.equalTo is truthy; settings that are
   * undefined or null raise a TypeError.
   */
  function LessThanVerdict(v: Validation, value: Value): Verdict
    requires v.LessThan?
  {
    if IsNullish(v.settings) then Fail(TypeError)
    else
      var orEqual := Get(v.settings, "equalTo").value;
      var bound := Get(v.settings, "lessThan").value;
      Check((Truthy(orEqual) && Le(value, bound)) || Lt(value, bound), v)
  }

  /**
   * `v.validate(value, model)`. A Validator validates `value` as its model:
   * each child is given the model's property named after the child.
   */
  function Run(v: Validation, value: Value, model: Value): Verdict
    decreases v, 1
  {
    match v
    case EqualTo(_, _, equalTo) => Check(LooseEquals(value, equalTo), v)
    case EqualToModelProperty(_, _, propertyName) =>
      (match Get(model, PropertyKey(propertyName))
       case Err(e) => Fail(e)
       case Ok(other) => Check(LooseEquals(value, other), v))
    case ExactLength(_, _, exactLength) =>
      (match Get(value, "length")
       case Err(e) => Fail(e)
       case Ok(length) => Check(LooseEquals(length, exactLength), v))
    case HasValue(_, _) => Check(!(value.Null? || LooseEquals(value, Str("")) || LooseEquals(value, Num(0))), v)
    case GreaterThan(_, _, _) => GreaterThanVerdict(v, value)
    case LessThan(_, _, _) => LessThanVerdict(v, value)
    case Validator(name, _, validateAll, validations) =>
      var errors := ChildErrors(validations, value);
      if (errors != [] && Truthy(validateAll)) || (|errors| == |validations| && !Truthy(validateAll))
      then Fail(ValidationError(name, Str(ErrorsOccurred), errors))
      else Pass
  }

  /** The verdict a Validator records for one child: a failed property read counts as the child's error. */
  function ChildVerdict(child: Validation, model: Value): Verdict
    decreases child, 2
  {
    match Get(model, PropertyKey(child.name))
    case Err(e) => Fail(e)
    case Ok(value) => Run(child, value, model)
  }

  /** The errors of the failing children, in the order the children are listed. */
  function ChildErrors(vs: seq<Validation>, model: Value): seq<JsError>
    decreases vs, 3
  {
    if vs == [] then []
    else
      (match ChildVerdict(vs[0], model) case Pass => [] case Fail(e) => [e])
      + ChildErrors(vs[1..], model)
  }

  /** Running a sequence of children in two parts collects the two parts' errors one after the other. */
  lemma {:induction false} ChildErrorsAppend(xs: seq<Validation>, ys: seq<Validation>, model: Value)
    ensures ChildErrors(xs + ys, model) == ChildErrors(xs, model) + ChildErrors(ys, model)
  {
    if xs == [] {
      assert xs + ys == ys;
    } else {
      assert (xs + ys)[0] == xs[0];
      assert (xs + ys)[1..] == xs[1..] + ys;
      ChildErrorsAppend(xs[1..], ys, model);
    }
  }

  /** Each child contributes its own error when it fails, and nothing when it passes. */
  lemma ChildErrorsSingle(child: Validation, model: Value)
    ensures ChildErrors([child], model) == match ChildVerdict(child, model) case Pass => [] case Fail(e) => [e]
  {
    assert [child][1..] == [];
  }

  /** No error is collected exactly when every child passes; one per child exactly when every child fails. */
  lemma {:induction false} ChildErrorsCount(vs: seq<Validation>, model: Value)
    ensures |ChildErrors(vs, model)| <= |vs|
    ensures ChildErrors(vs, model) == [] <==> forall i :: 0 <= i < |vs| ==> ChildVerdict(vs[i], model).Pass?
    ensures |ChildErrors(vs, model)| == |vs| <==> forall i :: 0 <= i < |vs| ==> ChildVerdict(vs[i], model).Fail?
  {
    if vs != [] {
      ChildErrorsCount(vs[1..], model);
      assert forall i :: 1 <= i < |vs| ==> vs[i] == vs[1..][i - 1];
      if ChildVerdict(vs[0], model).Pass? {
        assert |ChildErrors(vs, model)| == |ChildErrors(vs[1..], model)|;
      }
    }
  }

  /** With validateAll set, a Validator fails exactly when some child fails. */
  lemma ValidateAllFailsIffSomeChildFails(name: Value, message: Value, validateAll: Value, vs: seq<Validation>, model: Value, outer: Value)
    requires Truthy(validateAll)
    ensures Run(Validator(name, message, validateAll, vs), model, outer).Fail?
            <==> exists i :: 0 <= i < |vs| && ChildVerdict(vs[i], model).Fail?
  {
    ChildErrorsCount(vs, model);
  }

  /** With validateAll unset, a Validator fails exactly when no child passes, so an empty one always fails. */
  lemma ValidateAnyFailsIffNoChildPasses(name: Value, message: Value, validateAll: Value, vs: seq<Validation>, model: Value, outer: Value)
    requires !Truthy(validateAll)
    ensures Run(Validator(name, message, validateAll, vs), model, outer).Fail?
            <==> forall i :: 0 <= i < |vs| ==> ChildVerdict(vs[i], model).Fail?
    ensures vs == [] ==> Run(Validator(name, message, validateAll, vs), model, outer).Fail?
  {
    ChildErrorsCount(vs, model);
  }

  /** A failing Validator throws an error with its own name whose sub-errors are its children's errors, in order. */
  lemma ValidatorErrorCarriesChildErrors(name: Value, message: Value, validateAll: Value, vs: seq<Validation>, model: Value, outer: Value)
    requires Run(Validator(name, message, validateAll, vs), model, outer).Fail?
    ensures Run(Validator(name, message, validateAll, vs), model, outer).error
            == ValidationError(name, Str(ErrorsOccurred), ChildErrors(vs, model))
    ensures |ChildErrors(vs, model)| > 0 || vs == []
  {
    ChildErrorsCount(vs, model);
  }

  /** The settings object `{greaterThan: bound, equalTo: orEqual}` (or `lessThan`) a comparison is built with. */
  function BoundSettings(boundKey: string, bound: int, orEqual: Value): Value
  {
    Obj([Field(boundKey, Num(bound)), Field("equalTo", orEqual)])
  }

  /** GreaterThan passes a number above the bound, and one equal to it when equalTo is set. */
  lemma GreaterThanOnNumbers(name: Value, message: Value, x: int, bound: int, orEqual: Value, model: Value)
    ensures Run(GreaterThan(name, message, BoundSettings("greaterThan", bound, orEqual)), Num(x), model)
            == if x > bound || (Truthy(orEqual) && x >= bound) then Pass else Fail(ValidationError(name, message, []))
  {
    var settings := BoundSettings("greaterThan", bound, orEqual);
    assert Get(settings, "greaterThan") == Ok(Num(bound));
    assert "greaterThan"[0] != "equalTo"[0];
    assert settings.fields[1..] == [Field("equalTo", orEqual)];
    assert Lookup(settings.fields, "equalTo") == Some(orEqual);
    ComparisonsOnNumbers(x, bound);
  }

  /** LessThan passes a number below the bound, and one equal to it when equalTo is set. */
  lemma LessThanOnNumbers(name: Value, message: Value, x: int, bound: int, orEqual: Value, model: Value)
    ensures Run(LessThan(name, message, BoundSettings("lessThan", bound, orEqual)), Num(x), model)
            == if x < bound || (Truthy(orEqual) && x <= bound) then Pass else Fail(ValidationError(name, message, []))
  {
    var settings := BoundSettings("lessThan", bound, orEqual);
    assert Get(settings, "lessThan") == Ok(Num(bound));
    assert "lessThan"[0] != "equalTo"[0];
    assert settings.fields[1..] == [Field("equalTo", orEqual)];
    assert Lookup(settings.fields, "equalTo") == Some(orEqual);
    ComparisonsOnNumbers(x, bound);
  }

  /** A comparison rule without settings throws a TypeError when it validates. */
  lemma ComparisonWithoutSettings(name: Value, message: Value, value: Value, model: Value)
    ensures Run(GreaterThan(name, message, Undefined), value, model) == Fail(TypeError)
    ensures Run(LessThan(name, message, Undefined), value, model) == Fail(TypeError)
  {
  }

  /** ExactLength passes a string or array exactly when its length, in code units for a string, is the expected number. */
  lemma ExactLengthOnSequences(name: Value, message: Value, expected: int, value: Value, model: Value)
    requires value.Str? || value.Arr?
    ensures Run(ExactLength(name, message, Num(expected)), value, model).Pass?
            <==> (if value.Str? then |Utf16(value.s)| else |value.items|) == expected
  {
  }

  /** ExactLength throws a TypeError for undefined and null, which have no length. */
  lemma ExactLengthOnNullish(name: Value, message: Value, expected: Value, value: Value, model: Value)
    requires IsNullish(value)
    ensures Run(ExactLength(name, message, expected), value, model) == Fail(TypeError)
  {
  }

  /** EqualToModelProperty passes exactly when the value loosely equals the named property of the model. */
  lemma EqualToModelPropertyMeaning(name: Value, message: Value, property: string, value: Value, fields: seq<Field>)
    ensures Run(EqualToModelProperty(name, message, Str(property)), value, Obj(fields)).Pass?
            <==> LooseEquals(value, Lookup(fields, property).GetOr(Undefined))
  {
  }

  /** EqualTo passes exactly when the value loosely equals the configured one; on strings that is equality. */
  lemma EqualToMeaning(name: Value, message: Value, expected: string, actual: string, model: Value)
    ensures Run(EqualTo(name, message, Str(expected)), Str(actual), model).Pass? <==> actual == expected
  {
  }

  /**
   * HasValue rejects null and everything loosely equal to "" or 0 (false,
   * 0, "", "0"), and lets undefined through: `value === null` is strict and
   * undefined equals neither "" nor 0.
   */
  lemma HasValueCases(name: Value, message: Value, model: Value)
    ensures Run(HasValue(name, message), Null, model).Fail?
    ensures Run(HasValue(name, message), Str(""), model).Fail?
    ensures Run(HasValue(name, message), Str("0"), model).Fail?
    ensures Run(HasValue(name, message), Num(0), model).Fail?
    ensures Run(HasValue(name, message), Bool(false), model).Fail?
    ensures Run(HasValue(name, message), Undefined, model).Pass?
    ensures Run(HasValue(name, message), Bool(true), model).Pass?
  {
    assert Strings.ParseNat("0") == Some(0);
  }

  /** On numbers HasValue passes exactly the non-zero ones. */
  lemma HasValueOnNumbers(name: Value, message: Value, x: int, model: Value)
    ensures Run(HasValue(name, message), Num(x), model).Pass? <==> x != 0
  {
  }

  /**
   * `Validator.validate(model)` as its loop runs it: one pass over the
   * children that records each child's success or error.
   */
  method Validate(v: Validation, value: Value, model: Value) returns (r: Verdict)
    ensures r == Run(v, value, model)
    decreases v
  {
    if !v.Validator? {
      return Run(v, value, model);
    }
    var validations := v.validations;
    var subErrors: seq<JsError> := [];
    var oneValid := false;
    var allValid := true;
    for i := 0 to |validations|
      invariant subErrors == ChildErrors(validations[..i], value)
      invariant |subErrors| <= i
      invariant allValid <==> subErrors == []
      invariant oneValid <==> |subErrors| < i
    {
      var child := validations[i];
      var outcome: Verdict;
      var property := Get(value, PropertyKey(child.name));
      if property.Err? {
        outcome := Fail(property.error);
      } else {
        outcome := Validate(child, property.value, value);
      }
      assert outcome == ChildVerdict(child, value);
      ChildErrorsAppend(validations[..i], [child], value);
      ChildErrorsSingle(child, value);
      assert validations[..i + 1] == validations[..i] + [child];
      if outcome.Pass? {
        oneValid := true;
      } else {
        subErrors := subErrors + [outcome.error];
        allValid := false;
      }
    }
    assert validations[..|validations|] == validations;
    var error := ValidationError(v.name, Str(ErrorsOccurred), subErrors);
    if !allValid && Truthy(v.validateAll) {
      return Fail(error);
    }
    if !oneValid && !Truthy(v.validateAll) {
      return Fail(error);
    }
    return Pass;
  }

  /** Names in the validation namespace that are constructors this model leaves out. */
  const UnmodelledConstructors: set<string> :=
    {"MatchesRegEx", "BaseValidation", "ValidationError", "findValidationPlaceHolder"}

  /** The constructors of the model that read a property of their settings when constructed. */
  const SettingsReaders: set<string> := {"EqualTo", "EqualToModelProperty", "ExactLength"}

  /** Every constructor of the model. */
  const Constructors: set<string> := SettingsReaders + {"HasValue", "GreaterThan", "LessThan", "Validator"}

  /**
   * `new window.rhubarb.validation[type](name, settings)`: an unlabelled
   * validation of that type. A constructor that reads its settings throws a
   * TypeError when they are undefined or null, and so does a name that is
   * not a constructor at all. `new Validator(name)` is an empty validator
   * with validateAll set.
   */
  function Construct(typeName: string, name: Value, settings: Value): (r: Result<Validation, JsError>)
    ensures r.Ok? <==> typeName in Constructors && (typeName in SettingsReaders ==> !IsNullish(settings))
    ensures r.Err? ==> r.error == if typeName in UnmodelledConstructors then Unmodelled(typeName) else TypeError
    ensures r.Ok? ==> r.value.name == name && r.value.failedMessage == Str("")
    ensures r.Ok? && r.value.Validator? ==> typeName == "Validator" && r.value.validateAll == Bool(true) && r.value.validations == []
  {
    if typeName == "EqualTo" then
      var equalTo :- Get(settings, "equalTo");
      Ok(EqualTo(name, Str(""), equalTo))
    else if typeName == "EqualToModelProperty" then
      var propertyName :- Get(settings, "propertyName");
      Ok(EqualToModelProperty(name, Str(""), propertyName))
    else if typeName == "ExactLength" then
      var exactLength :- Get(settings, "exactLength");
      Ok(ExactLength(name, Str(""), exactLength))
    else if typeName == "HasValue" then Ok(HasValue(name, Str("")))
    else if typeName == "GreaterThan" then Ok(GreaterThan(name, Str(""), settings))
    else if typeName == "LessThan" then Ok(LessThan(name, Str(""), settings))
    else if typeName == "Validator" then Ok(Validator(name, Str(""), Bool(true), []))
    else if typeName in UnmodelledConstructors then Err(Unmodelled(typeName))
    else Err(TypeError)
  }

  /**
   * The items `for (var i in collection)` visits: the elements of an array,
   * the property values of an object, nothing for undefined, null, booleans
   * and numbers. The items of a non-empty string are its characters, the
   * first of which fails to construct (ForInStringFails), so the string
   * stands for that TypeError here.
   */
  function ForInValues(collection: Value): (r: Result<seq<Value>, JsError>)
    ensures r.Ok? ==> forall i :: 0 <= i < |r.value| ==> Depth(r.value[i]) < Depth(collection)
    ensures collection.Arr? ==> r == Ok(collection.items)
    ensures collection.Obj? ==> r.Ok? && |r.value| == |collection.fields| &&
                                forall i :: 0 <= i < |r.value| ==> r.value[i] == collection.fields[i].value
    ensures collection.Str? ==> (r.Ok? <==> collection.s == "") && (r.Ok? ==> r.value == []) && (r.Err? ==> r.error == TypeError)
    ensures !(collection.Arr? || collection.Obj? || collection.Str?) ==> r == Ok([])
  {
    match collection
    case Arr(xs) => Ok(xs)
    case Obj(fs) => Ok(seq(|fs|, i requires 0 <= i < |fs| => fs[i].value))
    case Str(s) => if s == "" then Ok([]) else Err(TypeError)
    case _ => Ok([])
  }

  /** The validation with its name and failed message replaced, as `fromJson` assigns them. */
  function Label(v: Validation, name: Value, failedMessage: Value): (r: Validation)
    ensures r.name == name && r.failedMessage == failedMessage
    ensures r.Validator? <==> v.Validator?
  {
    match v
    case EqualTo(_, _, equalTo) => EqualTo(name, failedMessage, equalTo)
    case EqualToModelProperty(_, _, propertyName) => EqualToModelProperty(name, failedMessage, propertyName)
    case ExactLength(_, _, exactLength) => ExactLength(name, failedMessage, exactLength)
    case HasValue(_, _) => HasValue(name, failedMessage)
    case GreaterThan(_, _, settings) => GreaterThan(name, failedMessage, settings)
    case LessThan(_, _, settings) => LessThan(name, failedMessage, settings)
    case Validator(_, _, validateAll, validations) => Validator(name, failedMessage, validateAll, validations)
  }

  /** Relabelling keeps everything a validation checks; only its name and message change. */
  lemma LabelKeepsRule(v: Validation, name: Value, failedMessage: Value)
    ensures Label(v, name, failedMessage) == Label(Label(v, Str(""), Str("")), name, failedMessage)
    ensures Label(v, v.name, v.failedMessage) == v
  {
  }

  /**
   * `Validator.fromJson(json)`: a validator named `json.name` whose
   * validateAll is `json.settings.validateAll` and whose children are the
   * parsed items of `json.settings.validations`.
   */
  function ParseValidator(json: Value): (r: Result<Validation, JsError>)
    ensures r.Ok? ==> r.value.Validator?
    ensures r.Ok? ==> Get(json, "name") == Ok(r.value.name) && r.value.failedMessage == Str("")
    ensures IsNullish(json) ==> r == Err(TypeError)
    decreases Depth(json), 2, 0
  {
    var name :- Get(json, "name");
    var settings := Get(json, "settings").value;
    var validateAll :- Get(settings, "validateAll");
    var collection := Get(settings, "validations").value;
    var items :- ForInValues(collection);
    var validations :- ParseItems(items, Depth(json));
    Ok(Validator(name, Str(""), validateAll, validations))
  }

  /** A parsed validator's validateAll and children are those its settings describe. */
  lemma ParseValidatorMeaning(json: Value)
    ensures var r := ParseValidator(json);
            r.Ok? ==>
              var settings := Get(json, "settings").value;
              Get(settings, "validateAll") == Ok(r.value.validateAll) &&
              ForInValues(Get(settings, "validations").value).Ok? &&
              ParseItems(ForInValues(Get(settings, "validations").value).value, Depth(json)) == Ok(r.value.validations)
  {
  }

  /** Every item is parsed, in order; the first failure is the result. */
  function ParseItems(items: seq<Value>, bound: nat): Result<seq<Validation>, JsError>
    requires forall i :: 0 <= i < |items| ==> Depth(items[i]) < bound
    decreases bound, 1, 1
  {
    Collect(ParseResults(items, bound))
  }

  /** The outcome of parsing each item on its own. */
  function ParseResults(items: seq<Value>, bound: nat): seq<Result<Validation, JsError>>
    requires forall i :: 0 <= i < |items| ==> Depth(items[i]) < bound
    decreases bound, 1, 0
  {
    seq(|items|, i requires 0 <= i < |items| => ParseItem(items[i], bound))
  }

  /**
   * One entry of `settings.validations`: its type selects a nested validator
   * parsed from the entry's settings, or a validation constructed from them;
   * either is labelled with the entry's name and failedMessage.
   */
  function ParseItem(item: Value, bound: nat): Result<Validation, JsError>
    requires Depth(item) < bound
    decreases bound, 0, 1
  {
    var typeName :- Get(item, "type");
    var name := Get(item, "name").value;
    var failedMessage := Get(item, "failedMessage").value;
    var settings := Get(item, "settings").value;
    var parsed :- ParseTyped(typeName, name, settings, bound);
    Ok(Label(parsed, name, failedMessage))
  }

  /** The validation an entry's type selects: a nested validator for "validator", else the named constructor. */
  function ParseTyped(typeName: Value, name: Value, settings: Value, bound: nat): Result<Validation, JsError>
    requires Depth(settings) < bound
    decreases bound, 0, 0
  {
    if LooseEquals(typeName, Str("validator")) then ParseValidator(settings)
    else Construct(PropertyKey(typeName), name, settings)
  }

  /** The values of a sequence of outcomes, or the first error among them. */
  function Collect<T>(rs: seq<Result<T, JsError>>): Result<seq<T>, JsError>
  {
    if rs == [] then Ok([])
    else
      match Collect(rs[..|rs| - 1])
      case Err(e) => Err(e)
      case Ok(xs) => (match rs[|rs| - 1] case Err(e) => Err(e) case Ok(x) => Ok(xs + [x]))
  }

  /** Collecting one more outcome extends the values, or keeps the first error. */
  lemma CollectSnoc<T>(rs: seq<Result<T, JsError>>, n: nat)
    requires n < |rs|
    ensures Collect(rs[..n + 1]) ==
              match Collect(rs[..n])
              case Err(e) => Err(e)
              case Ok(xs) => (match rs[n] case Err(e) => Err(e) case Ok(x) => Ok(xs + [x]))
  {
    assert rs[..n + 1][..n] == rs[..n];
  }

  /** Collecting succeeds exactly when every outcome is a value, and then yields the values in order. */
  lemma {:induction false} CollectOk<T>(rs: seq<Result<T, JsError>>)
    ensures Collect(rs).Ok? <==> forall i :: 0 <= i < |rs| ==> rs[i].Ok?
    ensures Collect(rs).Ok? ==> |Collect(rs).value| == |rs| && forall i :: 0 <= i < |rs| ==> rs[i] == Ok(Collect(rs).value[i])
  {
    if rs != [] {
      var n := |rs| - 1;
      CollectOk(rs[..n]);
      assert forall i :: 0 <= i < n ==> rs[..n][i] == rs[i];
    }
  }

  /** A failed collection reports the first error. */
  lemma {:induction false} CollectFirstError<T>(rs: seq<Result<T, JsError>>)
    requires Collect(rs).Err?
    ensures exists i :: 0 <= i < |rs| && rs[i] == Err(Collect(rs).error) && forall j :: 0 <= j < i ==> rs[j].Ok?
  {
    var n := |rs| - 1;
    assert forall i :: 0 <= i < n ==> rs[..n][i] == rs[i];
    if Collect(rs[..n]).Err? {
      CollectFirstError(rs[..n]);
      var i :| 0 <= i < n && rs[..n][i] == Err(Collect(rs[..n]).error) && forall j :: 0 <= j < i ==> rs[..n][j].Ok?;
      assert rs[i] == Err(Collect(rs).error);
    } else {
      CollectOk(rs[..n]);
      assert rs[n] == Err(Collect(rs).error);
    }
  }

  /** Once a prefix fails, the whole sequence fails with the same error. */
  lemma {:induction false} CollectErrPrefix<T>(rs: seq<Result<T, JsError>>, n: nat)
    requires n <= |rs| && Collect(rs[..n]).Err?
    ensures Collect(rs) == Collect(rs[..n])
    decreases |rs|
  {
    if n < |rs| {
      assert rs[..|rs| - 1][..n] == rs[..n];
      CollectErrPrefix(rs[..|rs| - 1], n);
    } else {
      assert rs[..n] == rs;
    }
  }

  /** Outcomes that are all values collect to exactly those values. */
  lemma CollectValues<T>(rs: seq<Result<T, JsError>>, xs: seq<T>)
    requires |rs| == |xs| && forall i :: 0 <= i < |rs| ==> rs[i] == Ok(xs[i])
    ensures Collect(rs) == Ok(xs)
  {
    CollectOk(rs);
    assert Collect(rs).value == xs;
  }

  /**
   * A parsed item carries the entry's name and failedMessage and the rule
   * its type selects; an entry of type "validator" is always a validator.
   * Undefined and null entries throw a TypeError.
   */
  lemma ParseItemMeaning(item: Value, bound: nat)
    requires Depth(item) < bound
    ensures IsNullish(item) ==> ParseItem(item, bound) == Err(TypeError)
    ensures var r := ParseItem(item, bound);
            r.Ok? ==>
              Get(item, "name") == Ok(r.value.name) && Get(item, "failedMessage") == Ok(r.value.failedMessage) &&
              var settings := Get(item, "settings").value;
              var typeName := Get(item, "type").value;
              var parsed := if LooseEquals(typeName, Str("validator")) then ParseValidator(settings)
                            else Construct(PropertyKey(typeName), r.value.name, settings);
              parsed.Ok? && r.value == Label(parsed.value, r.value.name, r.value.failedMessage) &&
              (LooseEquals(typeName, Str("validator")) ==> r.value.Validator?)
  {
    if ParseItem(item, bound).Ok? {
      var settings := Get(item, "settings").value;
      var typeName := Get(item, "type").value;
      var name := Get(item, "name").value;
      assert ParseTyped(typeName, name, settings, bound) ==
             if LooseEquals(typeName, Str("validator")) then ParseValidator(settings)
             else Construct(PropertyKey(typeName), name, settings);
    }
  }

  /** Parsing succeeds exactly when every item parses, and then yields the items' results in order. */
  lemma ParseItemsOk(items: seq<Value>, bound: nat)
    requires forall i :: 0 <= i < |items| ==> Depth(items[i]) < bound
    ensures ParseItems(items, bound).Ok? <==> forall i :: 0 <= i < |items| ==> ParseItem(items[i], bound).Ok?
    ensures ParseItems(items, bound).Ok? ==>
              |ParseItems(items, bound).value| == |items| &&
              forall i :: 0 <= i < |items| ==> ParseItem(items[i], bound) == Ok(ParseItems(items, bound).value[i])
  {
    var outcomes := ParseResults(items, bound);
    assert forall i :: 0 <= i < |items| ==> outcomes[i] == ParseItem(items[i], bound);
    CollectOk(outcomes);
  }

  /** A failed parse reports the error of the first item that fails. */
  lemma ParseItemsFirstError(items: seq<Value>, bound: nat)
    requires forall i :: 0 <= i < |items| ==> Depth(items[i]) < bound
    requires ParseItems(items, bound).Err?
    ensures exists i :: 0 <= i < |items| && ParseItem(items[i], bound) == Err(ParseItems(items, bound).error) &&
                        forall j :: 0 <= j < i ==> ParseItem(items[j], bound).Ok?
  {
    var outcomes := ParseResults(items, bound);
    assert forall i :: 0 <= i < |items| ==> outcomes[i] == ParseItem(items[i], bound);
    CollectFirstError(outcomes);
  }

  /** An entry of a string's for-in, a one-character string, has no type and fails to construct. */
  lemma ForInStringFails(c: char, bound: nat)
    requires Depth(Str([c])) < bound
    ensures ParseItem(Str([c]), bound) == Err(TypeError)
  {
    assert !("undefined" in Constructors);
    assert !("undefined" in UnmodelledConstructors);
  }

  /**
   * `Validator.fromJson(json)` as its loop runs it: reads the name and
   * validateAll, then builds the children one entry at a time.
   */
  method FromJson(json: Value) returns (r: Result<Validation, JsError>)
    ensures r == ParseValidator(json)
    decreases Depth(json)
  {
    var name :- Get(json, "name");
    var settings := Get(json, "settings").value;
    var validateAll :- Get(settings, "validateAll");
    var items :- ForInValues(Get(settings, "validations").value);
    var bound := Depth(json);
    ghost var outcomes := ParseResults(items, bound);
    var validations: seq<Validation> := [];
    for i := 0 to |items|
      invariant Collect(outcomes[..i]) == Ok(validations)
    {
      CollectSnoc(outcomes, i);
      var item := items[i];
      assert outcomes[i] == ParseItem(item, bound);
      var validationJson := Get(item, "type");
      if validationJson.Err? {
        CollectErrPrefix(outcomes, i + 1);
        return Err(validationJson.error);
      }
      var typeName := validationJson.value;
      var itemName := Get(item, "name").value;
      var failedMessage := Get(item, "failedMessage").value;
      var itemSettings := Get(item, "settings").value;
      var parsed;
      if LooseEquals(typeName, Str("validator")) {
        parsed := FromJson(itemSettings);
      } else {
        parsed := Construct(PropertyKey(typeName), itemName, itemSettings);
      }
      assert parsed == ParseTyped(typeName, itemName, itemSettings, bound);
      if parsed.Err? {
        CollectErrPrefix(outcomes, i + 1);
        return Err(parsed.error);
      }
      validations := validations + [Label(parsed.value, itemName, failedMessage)];
    }
    assert outcomes[..|items|] == outcomes;
    return Ok(Validator(name, Str(""), validateAll, validations));
  }

  /**
   * The JSON description of a validator that `fromJson` reads:
   * `{name, settings: {validateAll, validations: [entries]}}`.
   */
  function ValidatorJson(name: Value, validateAll: Value, validations: seq<Validation>): Value
    decreases validations, 1
  {
    Obj([Field("name", name),
         Field("settings", Obj([Field("validateAll", validateAll),
                                Field("validations", Arr(EntriesJson(validations)))]))])
  }

  function EntriesJson(validations: seq<Validation>): (r: seq<Value>)
    ensures |r| == |validations|
    decreases validations, 0
  {
    seq(|validations|, i requires 0 <= i < |validations| => EntryJson(validations[i]))
  }

  function Entry(typeName: string, name: Value, failedMessage: Value, settings: Value): Value
  {
    Obj([Field("type", Str(typeName)), Field("name", name), Field("failedMessage", failedMessage), Field("settings", settings)])
  }

  /** The `type` an entry describing the validation carries. */
  function TypeName(v: Validation): string
  {
    match v
    case EqualTo(_, _, _) => "EqualTo"
    case EqualToModelProperty(_, _, _) => "EqualToModelProperty"
    case ExactLength(_, _, _) => "ExactLength"
    case HasValue(_, _) => "HasValue"
    case GreaterThan(_, _, _) => "GreaterThan"
    case LessThan(_, _, _) => "LessThan"
    case Validator(_, _, _, _) => "validator"
  }

  /** The `settings` an entry describing the validation carries. */
  function SettingsJson(v: Validation): Value
    decreases v, 2
  {
    match v
    case EqualTo(_, _, equalTo) => Obj([Field("equalTo", equalTo)])
    case EqualToModelProperty(_, _, propertyName) => Obj([Field("propertyName", propertyName)])
    case ExactLength(_, _, exactLength) => Obj([Field("exactLength", exactLength)])
    case HasValue(_, _) => Obj([])
    case GreaterThan(_, _, settings) => settings
    case LessThan(_, _, settings) => settings
    case Validator(name, _, validateAll, validations) => ValidatorJson(name, validateAll, validations)
  }

  /** The entry `{type, name, failedMessage, settings}` describing one validation. */
  function EntryJson(v: Validation): Value
    decreases v, 3
  {
    Entry(TypeName(v), v.name, v.failedMessage, SettingsJson(v))
  }

  /**
   * `fromJson` reads back every validator tree from its description; only
   * the top-level failed message, which the description does not carry, is
   * reset to "".
   */
  lemma {:induction false} ValidatorJsonRoundTrip(name: Value, validateAll: Value, validations: seq<Validation>)
    ensures ParseValidator(ValidatorJson(name, validateAll, validations)) == Ok(Validator(name, Str(""), validateAll, validations))
    decreases validations, 1
  {
    var json := ValidatorJson(name, validateAll, validations);
    var settings := json.fields[1].value;
    assert Get(json, "name") == Ok(name);
    assert Get(json, "settings") == Ok(settings);
    assert Get(settings, "validateAll") == Ok(validateAll);
    assert "validateAll"[8] != "validations"[8];
    LookupFirst(settings.fields, "validations", 1);
    var entries := EntriesJson(validations);
    assert Depth(Arr(entries)) < Depth(json) by {
      assert Depth(Arr(entries)) <= MaxFieldDepth(settings.fields);
      assert Depth(settings) <= MaxFieldDepth(json.fields);
    }
    EntriesJsonRoundTrip(validations, Depth(json));
  }

  /** A list of entries parses back to the validations it describes, in order. */
  lemma {:induction false} EntriesJsonRoundTrip(validations: seq<Validation>, bound: nat)
    requires Depth(Arr(EntriesJson(validations))) <= bound
    ensures forall i :: 0 <= i < |validations| ==> Depth(EntriesJson(validations)[i]) < bound
    ensures ParseItems(EntriesJson(validations), bound) == Ok(validations)
    decreases validations, 0
  {
    var entries := EntriesJson(validations);
    assert forall i :: 0 <= i < |entries| ==> Depth(entries[i]) <= MaxDepth(entries);
    var outcomes := ParseResults(entries, bound);
    forall i | 0 <= i < |validations|
      ensures outcomes[i] == Ok(validations[i])
    {
      assert entries[i] == EntryJson(validations[i]);
      assert outcomes[i] == ParseItem(entries[i], bound);
      EntryJsonRoundTrip(validations[i], bound);
    }
    CollectValues(outcomes, validations);
  }

  /** An entry is parsed by the rule its type names, then labelled with its name and message. */
  lemma EntryParse(typeName: string, name: Value, message: Value, settings: Value, bound: nat)
    requires Depth(Entry(typeName, name, message, settings)) < bound
    ensures Depth(settings) < bound
    ensures ParseItem(Entry(typeName, name, message, settings), bound) ==
              match (if typeName == "validator" then ParseValidator(settings) else Construct(typeName, name, settings))
              case Err(e) => Err(e)
              case Ok(parsed) => Ok(Label(parsed, name, message))
  {
    EntryFields(typeName, name, message, settings);
    var entry := Entry(typeName, name, message, settings);
    assert Depth(settings) < bound by {
      assert Depth(settings) <= MaxFieldDepth(entry.fields);
    }
    assert PropertyKey(Str(typeName)) == typeName;
    assert LooseEquals(Str(typeName), Str("validator")) <==> typeName == "validator";
    assert ParseTyped(Str(typeName), name, settings, bound) ==
           if typeName == "validator" then ParseValidator(settings) else Construct(typeName, name, settings);
  }

  /** The four properties of an entry read back as written. */
  lemma EntryFields(typeName: string, name: Value, message: Value, settings: Value)
    ensures var entry := Entry(typeName, name, message, settings);
            Get(entry, "type") == Ok(Str(typeName)) && Get(entry, "name") == Ok(name) &&
            Get(entry, "failedMessage") == Ok(message) && Get(entry, "settings") == Ok(settings)
  {
    var entry := Entry(typeName, name, message, settings);
    assert "type"[0] != "name"[0] && "type"[0] != "failedMessage"[0] && "name"[0] != "failedMessage"[0];
    LookupFirst(entry.fields, "name", 1);
    LookupFirst(entry.fields, "failedMessage", 2);
    assert "settings"[0] != "type"[0] && "settings"[0] != "name"[0] && "settings"[0] != "failedMessage"[0];
    LookupFirst(entry.fields, "settings", 3);
  }

  /** One entry parses back to the validation it describes. */
  lemma {:induction false} EntryJsonRoundTrip(v: Validation, bound: nat)
    requires Depth(EntryJson(v)) < bound
    ensures ParseItem(EntryJson(v), bound) == Ok(v)
    decreases v, 2
  {
    EntryParse(TypeName(v), v.name, v.failedMessage, SettingsJson(v), bound);
    if v.Validator? {
      ValidatorJsonRoundTrip(v.name, v.validateAll, v.validations);
    } else {
      ConstructRoundTrip(v);
    }
  }

  /** The constructor an entry names rebuilds the rule it describes, unlabelled. */
  lemma ConstructRoundTrip(v: Validation)
    requires !v.Validator?
    ensures TypeName(v) != "validator"
    ensures Construct(TypeName(v), v.name, SettingsJson(v)) == Ok(Label(v, v.name, Str("")))
  {
    assert TypeName(v)[0] != "validator"[0];
  }
}
