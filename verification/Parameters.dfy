/**
 The three checks a parameter passes on its way to a service call: the typed-answer normaliser, the gateway's policy, and
 Core's own validator.
 */
module Parameters {
  import opened Common

  const MAX_PARAMETERS := 8
  const MAX_TEXT := 128
  const MAX_NAME := 64
  const MAX_ENUM := 32

  /** A JSON-like value; the floats that are not numbers are kept apart. */
  datatype Value = Number(n: real) | NaN | Infinite(positive: bool) | Text(text: string) | Other

  datatype Spec =
    | NumberSpec(minimum: Option<real>, maximum: Option<real>)
    | StringSpec(choices: Option<seq<string>>)
    | OtherSpec

  /** `required` is `None` when it is not a list. */
  datatype Schema = Schema(required: Option<seq<string>>, properties: map<string, Spec>)

  datatype Validator = Core | Policy | TypedAnswer

  type Values = map<string, Value>

  predicate Below(v: Value, minimum: Option<real>) {
    minimum.Some? && ((v.Number? && v.n < minimum.value) || (v.Infinite? && !v.positive))
  }

  predicate Above(v: Value, maximum: Option<real>) {
    maximum.Some? && ((v.Number? && v.n > maximum.value) || (v.Infinite? && v.positive))
  }

  /** Comparisons with NaN are false, so only a check for finiteness stops it. */
  predicate NumberPasses(validator: Validator, spec: Spec, v: Value)
    requires spec.NumberSpec?
  {
    && (v.Number? || v.NaN? || v.Infinite?)
    && (validator != Policy ==> v.Number?)
    && !Below(v, spec.minimum) && !Above(v, spec.maximum)
  }

  predicate TextPasses(validator: Validator, spec: Spec, v: Value)
    requires spec.StringSpec?
  {
    && v.Text? && |v.text| <= MAX_TEXT
    && (match validator
        case Core => !Blank(v.text)
        case Policy => true
        case TypedAnswer => v.text != "")
    && (spec.choices.Some? && (validator == TypedAnswer || spec.choices.value != []) ==> v.text in spec.choices.value)
  }

  predicate Passes(validator: Validator, spec: Spec, v: Value) {
    match spec
    case NumberSpec(_, _) => NumberPasses(validator, spec, v)
    case StringSpec(_) => TextPasses(validator, spec, v)
    case OtherSpec => false
  }

  predicate NameFits(name: string) {
    0 < |name| <= MAX_NAME
  }

  predicate SpecFits(spec: Spec) {
    match spec
    case NumberSpec(minimum, maximum) => minimum.Some? && maximum.Some? && minimum.value <= maximum.value
    case StringSpec(choices) =>
      choices.Some? ==>
        && |choices.value| <= MAX_ENUM
        && (forall c :: c in choices.value ==> 0 < |c| <= MAX_TEXT)
        && forall i, j :: 0 <= i < j < |choices.value| ==> choices.value[i] != choices.value[j]
    case OtherSpec => false
  }

  /** The small schema language a typed provider may be asked about. */
  predicate SchemaFits(s: Schema) {
    && s.required.Some?
    && |s.properties| <= MAX_PARAMETERS && |s.required.value| <= MAX_PARAMETERS
    && (forall name :: name in s.required.value ==> NameFits(name) && name in s.properties)
    && (forall i, j :: 0 <= i < j < |s.required.value| ==> s.required.value[i] != s.required.value[j])
    && (forall name :: name in s.properties ==> NameFits(name) && SpecFits(s.properties[name]))
  }

  /** The checks made before any value is looked at. */
  predicate Admits(validator: Validator, s: Schema, parameters: Values) {
    && |parameters| <= MAX_PARAMETERS
    && s.required.Some?
    && (validator == TypedAnswer ==> SchemaFits(s))
    && (forall name :: name in s.required.value ==> name in parameters)
    && parameters.Keys <= s.properties.Keys
  }

  predicate Accepts(validator: Validator, s: Schema, parameters: Values) {
    Admits(validator, s, parameters) && forall name :: name in parameters ==> Passes(validator, s.properties[name], parameters[name])
  }

  // ---------------------------------------------------------------------------------------------------------
  // What the three checks accept
  // ---------------------------------------------------------------------------------------------------------

  /** A value is one of its spec: a number in its closed range, or a text of the choices that is not too long. */
  predicate Fits(validator: Validator, spec: Spec, v: Value) {
    match (spec, v)
    case (NumberSpec(lower, upper), Number(n)) => (lower.Some? ==> n >= lower.value) && (upper.Some? ==> n <= upper.value)
    case (NumberSpec(_, _), NaN) => validator == Policy
    case (NumberSpec(lower, upper), Infinite(positive)) => validator == Policy && if positive then upper.None? else lower.None?
    case (StringSpec(choices), Text(text)) =>
      && |text| <= 128
      && (validator == Core ==> exists c :: c in text && !Space(c))
      && (validator == TypedAnswer ==> text != "")
      && (choices.None? || text in choices.value || (choices.value == [] && validator != TypedAnswer))
    case (_, _) => false
  }

  lemma PassesMeans(validator: Validator, spec: Spec, v: Value)
    ensures Passes(validator, spec, v) <==> Fits(validator, spec, v)
  {
  }

  /** Each check, in full: at most eight parameters, none missing and none unknown, each a value of its spec. */
  lemma AcceptsExactly(validator: Validator, s: Schema, parameters: Values)
    ensures Accepts(validator, s, parameters) <==>
      && |parameters| <= 8 && s.required.Some? && (validator == TypedAnswer ==> Askable(s))
      && (forall name :: name in s.required.value ==> name in parameters)
      && forall name :: name in parameters ==> name in s.properties && Fits(validator, s.properties[name], parameters[name])
  {
    AskableMeans(s);
    forall name | name in parameters && name in s.properties
      ensures Passes(validator, s.properties[name], parameters[name]) <==> Fits(validator, s.properties[name], parameters[name])
    {
      PassesMeans(validator, s.properties[name], parameters[name]);
    }
  }

  predicate Name(name: string) {
    1 <= |name| <= 64
  }

  /** The schema language of typed answers: few, named, required only if declared, with ranges and short distinct choices. */
  predicate Askable(s: Schema) {
    && s.required.Some? && |s.required.value| <= 8 && |s.properties| <= 8
    && (forall i :: 0 <= i < |s.required.value| ==>
          && Name(s.required.value[i]) && s.required.value[i] in s.properties && s.required.value[i] !in s.required.value[..i])
    && forall name :: name in s.properties ==> Name(name) && AskableSpec(s.properties[name])
  }

  predicate AskableSpec(spec: Spec) {
    match spec
    case NumberSpec(Some(lower), Some(upper)) => lower <= upper
    case StringSpec(None) => true
    case StringSpec(Some(choices)) =>
      |choices| <= 32 && forall i :: 0 <= i < |choices| ==> 1 <= |choices[i]| <= 128 && choices[i] !in choices[..i]
    case _ => false
  }

  lemma AskableSpecMeans(spec: Spec)
    ensures SpecFits(spec) <==> AskableSpec(spec)
  {
    if spec.StringSpec? && spec.choices.Some? {
      NoneTwice(spec.choices.value);
    }
  }

  lemma AskableMeans(s: Schema)
    ensures SchemaFits(s) <==> Askable(s)
  {
    if s.required.Some? {
      NoneTwice(s.required.value);
      assert forall i :: 0 <= i < |s.required.value| ==> s.required.value[i] in s.required.value;
      assert (forall name :: name in s.required.value ==> NameFits(name) && name in s.properties) <==>
        forall i :: 0 <= i < |s.required.value| ==> Name(s.required.value[i]) && s.required.value[i] in s.properties;
    }
    forall name | name in s.properties ensures SpecFits(s.properties[name]) <==> AskableSpec(s.properties[name]) {
      AskableSpecMeans(s.properties[name]);
    }
  }

  lemma NoneTwice(texts: seq<string>)
    ensures (forall i, j :: 0 <= i < j < |texts| ==> texts[i] != texts[j]) <==> forall i :: 0 <= i < |texts| ==> texts[i] !in texts[..i]
  {
    if forall i :: 0 <= i < |texts| ==> texts[i] !in texts[..i] {
      forall i, j | 0 <= i < j < |texts| ensures texts[i] != texts[j] {
        assert texts[..j][i] == texts[i];
      }
    }
  }

  /** An accepted object of parameters, as a sequence of distinct keys with their values. */
  ghost predicate ListsKeys(keys: seq<string>, parameters: Values) {
    && (forall k :: k in keys <==> k in parameters)
    && forall i, j :: 0 <= i < j < |keys| ==> keys[i] != keys[j]
  }

  /** All three validators: they go through the items in the order of the object and stop at the first one that fails. */
  method Validate(validator: Validator, s: Schema, parameters: Values, keys: seq<string>) returns (clean: Option<Values>)
    requires ListsKeys(keys, parameters)
    ensures clean == if Accepts(validator, s, parameters) then Some(parameters) else None
  {
    if !Admits(validator, s, parameters) {
      return None;
    }
    var result: Values := map[];
    for i := 0 to |keys|
      invariant forall j :: 0 <= j < i ==> Passes(validator, s.properties[keys[j]], parameters[keys[j]])
      invariant forall k :: k in result <==> k in keys[..i]
      invariant forall k :: k in result ==> result[k] == parameters[k]
    {
      var key := keys[i];
      if !Passes(validator, s.properties[key], parameters[key]) {
        return None;
      }
      result := result[key := parameters[key]];
    }
    assert keys[..|keys|] == keys;
    AllKeysPass(validator, s, parameters, keys);
    assert result == parameters;
    return Some(result);
  }

  lemma AllKeysPass(validator: Validator, s: Schema, parameters: Values, keys: seq<string>)
    requires ListsKeys(keys, parameters) && Admits(validator, s, parameters)
    requires forall j :: 0 <= j < |keys| ==> Passes(validator, s.properties[keys[j]], parameters[keys[j]])
    ensures Accepts(validator, s, parameters)
  {
    forall name | name in parameters ensures Passes(validator, s.properties[name], parameters[name]) {
      var j :| 0 <= j < |keys| && keys[j] == name;
    }
  }

  /** Whatever Core or the normaliser lets through, the gateway's policy lets through as well. */
  lemma PolicyIsTheWidest(validator: Validator, s: Schema, parameters: Values)
    requires Accepts(validator, s, parameters)
    ensures Accepts(Policy, s, parameters)
  {
    forall name | name in parameters ensures Passes(Policy, s.properties[name], parameters[name]) {
      assert Passes(validator, s.properties[name], parameters[name]);
    }
  }

  predicate CoreWouldTake(v: Value) {
    match v
    case Number(_) => true
    case NaN => false
    case Infinite(_) => false
    case Text(text) => !Blank(text)
    case Other => true
  }

  /** Of what policy accepts, Core accepts exactly the objects without blank texts and without numbers that are not finite. */
  lemma CoreIsStricterExactly(s: Schema, parameters: Values)
    requires Accepts(Policy, s, parameters)
    ensures Accepts(Core, s, parameters) <==> forall name :: name in parameters ==> CoreWouldTake(parameters[name])
  {
    forall name | name in parameters
      ensures Passes(Core, s.properties[name], parameters[name]) <==> CoreWouldTake(parameters[name])
    {
      assert Passes(Policy, s.properties[name], parameters[name]);
    }
  }

  /** Of what policy accepts for a schema in the typed language, the normaliser refuses only an empty text, a NaN, or an empty list of choices. */
  lemma NormaliserIsStricterExactly(s: Schema, parameters: Values)
    requires Accepts(Policy, s, parameters) && SchemaFits(s)
    ensures Accepts(TypedAnswer, s, parameters) <==>
      forall name :: name in parameters ==>
        && !parameters[name].NaN?
        && parameters[name] != Text("")
        && s.properties[name] != StringSpec(Some([]))
  {
    forall name | name in parameters
      ensures Passes(TypedAnswer, s.properties[name], parameters[name]) <==>
        !parameters[name].NaN? && parameters[name] != Text("") && s.properties[name] != StringSpec(Some([]))
    {
      assert Passes(Policy, s.properties[name], parameters[name]) && SpecFits(s.properties[name]);
    }
  }

  /** Every value that passes Core is a finite number within the bounds or one of the choices of its schema. */
  lemma CoreValuesAreInSchema(s: Schema, parameters: Values, name: string)
    requires Accepts(Core, s, parameters) && name in parameters
    ensures name in s.properties
    ensures match s.properties[name]
            case NumberSpec(minimum, maximum) =>
              && parameters[name].Number?
              && (minimum.Some? ==> minimum.value <= parameters[name].n)
              && (maximum.Some? ==> parameters[name].n <= maximum.value)
            case StringSpec(choices) =>
              && parameters[name].Text? && 0 < |parameters[name].text| <= MAX_TEXT
              && (choices.Some? && choices.value != [] ==> parameters[name].text in choices.value)
            case OtherSpec => false
  {
    assert Passes(Core, s.properties[name], parameters[name]);
  }

  /** The inclusion is strict: a blank text passes the gateway and is refused by Core. */
  lemma BlankTextStopsAtCore()
    ensures var s, parameters := Schema(Some([]), map["mode" := StringSpec(None)]), map["mode" := Text(" ")];
      Accepts(Policy, s, parameters) && Accepts(TypedAnswer, s, parameters) && !Accepts(Core, s, parameters)
  {
    var parameters := map["mode" := Text(" ")];
    assert "mode" in parameters && Blank(parameters["mode"].text);
  }
}
