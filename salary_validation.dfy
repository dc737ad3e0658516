/** `validate_and_convert_salary_json` (main.py:49-65): decides whether the
    value extracted from a model reply is an acceptable salary comparison.
    A dict is checked for key presence only; anything else is taken for JSON
    text, parsed, and checked against the 10000 USD ceiling only, because the
    key-presence result at main.py:61 is overwritten at main.py:62. */
module SalaryValidation {
  import opened Text
  import opened PyValues

  /** The policy ceiling on a monthly salary, in USD. */
  const Ceiling: int := 10000

  /** The dict holds a `salary_comparison` entry that contains (in Python's
      sense of `in`) both `philippines` and `united_states`. */
  predicate HasSalaryKeys(data: Value) {
    && data.Dict?
    && "salary_comparison" in data.fields
    && In("philippines", data.fields["salary_comparison"]) == Return(true)
    && In("united_states", data.fields["salary_comparison"]) == Return(true)
  }

  /** The number a value stands for in a comparison with an integer. */
  function NumberOf(v: Value): int
    requires v.Int? || v.Bool?
  {
    if v.Int? then v.n else if v.b then 1 else 0
  }

  /** `data["salary_comparison"]` is a dict whose `philippines` and
      `united_states` entries are numbers below the ceiling. */
  predicate BelowCeiling(data: Value) {
    && data.Dict? && "salary_comparison" in data.fields
    && var section := data.fields["salary_comparison"];
    && section.Dict? && "philippines" in section.fields && "united_states" in section.fields
    && var ph, us := section.fields["philippines"], section.fields["united_states"];
    && (ph.Int? || ph.Bool?) && (us.Int? || us.Bool?)
    && NumberOf(ph) < Ceiling && NumberOf(us) < Ceiling
  }

  /** `is_valid_salary_comparison` (main.py:50-55), with Python's
      short-circuit `and` and the exceptions `in` and `[]` can raise. */
  function IsValidSalaryComparison(data: Value): (r: Outcome<bool>)
    ensures r == Return(true) <==> HasSalaryKeys(data)
    ensures data.Dict? ==> (r.Raise? <==> "salary_comparison" in data.fields && !IsContainer(data.fields["salary_comparison"]))
    ensures r.Raise? ==> r.exc == TypeError
  {
    var hasSection :- In("salary_comparison", data);
    if !hasSection then Return(false)
    else
      var section :- Subscript(data, "salary_comparison");
      var hasPhilippines :- In("philippines", section);
      if !hasPhilippines then Return(false)
      else In("united_states", section)
  }

  /** The expression at main.py:62: both figures below the ceiling, looked up
      left to right, the second one only when the first passes (the second
      `data["salary_comparison"]` finds the same entry as the first). */
  function NumericCheck(data: Value): (r: Outcome<bool>)
    ensures r == Return(true) <==> BelowCeiling(data)
    ensures r.Raise? ==> r.exc == KeyError || r.exc == TypeError
    ensures r == Raise(KeyError) <==>
      || (data.Dict? && "salary_comparison" !in data.fields)
      || (data.Dict? && "salary_comparison" in data.fields
          && data.fields["salary_comparison"].Dict?
          && var section := data.fields["salary_comparison"].fields;
          || "philippines" !in section
          || ((section["philippines"].Int? || section["philippines"].Bool?)
              && NumberOf(section["philippines"]) < Ceiling && "united_states" !in section))
  {
    var section :- Subscript(data, "salary_comparison");
    var philippines :- Subscript(section, "philippines");
    var philippinesBelow :- LessThan(philippines, Ceiling);
    if !philippinesBelow then Return(false)
    else
      var unitedStates :- Subscript(section, "united_states");
      LessThan(unitedStates, Ceiling)
  }

  /** The body of the `try` block (main.py:60-63): `json.loads`, then the
      structural check, whose result is discarded, then the numeric check. */
  function TryBlock(input: Value, loads: string -> Outcome<Value>): (r: Outcome<(Value, bool)>)
    ensures !input.Str? ==> r == Raise(TypeError)
    ensures r.Return? ==> input.Str? && loads(input.s) == Return(r.value.0)
    ensures r.Return? ==> (r.value.1 <==> BelowCeiling(r.value.0))
  {
    var text :- if input.Str? then Return(input.s) else Raise(TypeError);
    var data :- loads(text);
    var structural :- IsValidSalaryComparison(data);
    var valid :- NumericCheck(data);
    Return((data, valid))
  }

  /** `validate_and_convert_salary_json` (main.py:49-65). On a dict: the dict
      itself and its key-presence verdict, with no numeric bound, and a
      `TypeError` that nothing catches when its `salary_comparison` entry is
      not a container. Otherwise: `(None, False)` when the input is not a
      string or is not JSON, a `KeyError` that escapes the handler when a key
      is missing, and otherwise the parsed value with the verdict of the
      ceiling check alone. */
  function ValidateAndConvertSalaryJson(input: Value, loads: string -> Outcome<Value>): (r: Outcome<(Value, bool)>)
    ensures input.Dict? && r.Return? ==> r.value == (input, HasSalaryKeys(input))
    ensures !input.Dict? && r.Return? && r.value.1 ==> BelowCeiling(r.value.0)
  {
    if input.Dict? then
      var valid :- IsValidSalaryComparison(input);
      Return((input, valid))
    else
      match TryBlock(input, loads)
      case Raise(e) => if e == JSONDecodeError || e == TypeError then Return((Null, false)) else Raise(e)
      case Return(result) => Return(result)
  }

  /** On a dict, the only exception is the `TypeError` of `in` on a
      `salary_comparison` entry that is not a container; nothing catches it. */
  lemma DictPathRaisesOnlyTypeError(input: Value, loads: string -> Outcome<Value>)
    requires input.Dict?
    ensures var r := ValidateAndConvertSalaryJson(input, loads);
      && (r.Return? || r == Raise(TypeError))
      && (r == Raise(TypeError) <==> "salary_comparison" in input.fields && !IsContainer(input.fields["salary_comparison"]))
  {
  }

  /** Neither a dict nor a string: `json.loads` raises `TypeError`, which
      the handler turns into `(None, False)`. */
  lemma NonTextRejected(input: Value, loads: string -> Outcome<Value>)
    requires !input.Dict? && !input.Str?
    ensures ValidateAndConvertSalaryJson(input, loads) == Return((Null, false))
  {
  }

  /** A string that is not JSON gives `(None, False)`. */
  lemma UndecodableRejected(s: string, loads: string -> Outcome<Value>)
    requires loads(s) == Raise(JSONDecodeError)
    ensures ValidateAndConvertSalaryJson(Str(s), loads) == Return((Null, false))
  {
  }

  /** Parsed text whose figures cannot be compared with 10000 (a string
      figure, say) gives `(None, False)`: the `TypeError` of main.py:62 is
      caught at main.py:64. */
  lemma CeilingTypeErrorRejected(s: string, loads: string -> Outcome<Value>)
    requires loads(s).Return? && NumericCheck(loads(s).value) == Raise(TypeError)
    ensures ValidateAndConvertSalaryJson(Str(s), loads) == Return((Null, false))
  {
    StructuralCheckHasNoEffect(Str(s), loads);
  }

  /** Parsed text whose section lacks a country key (or lacks the section)
      raises the `KeyError` of main.py:62, which the handler at main.py:64
      does not catch. */
  lemma KeyErrorEscapes(s: string, loads: string -> Outcome<Value>)
    requires loads(s).Return? && NumericCheck(loads(s).value) == Raise(KeyError)
    ensures ValidateAndConvertSalaryJson(Str(s), loads) == Raise(KeyError)
  {
    StructuralCheckHasNoEffect(Str(s), loads);
  }

  /** Off the dict path, the handler swallows `JSONDecodeError` and
      `TypeError`, so any exception that escapes is of another kind. */
  lemma HandlerSwallowsDecodeAndTypeErrors(input: Value, loads: string -> Outcome<Value>)
    requires !input.Dict? && ValidateAndConvertSalaryJson(input, loads).Raise?
    ensures ValidateAndConvertSalaryJson(input, loads).exc !in {JSONDecodeError, TypeError}
  {
  }

  /** Whenever the structural check at main.py:61 raises, the numeric check
      at main.py:62 would have raised the same `TypeError`; so dropping
      main.py:61 changes nothing. */
  lemma {:induction false} StructuralCheckHasNoEffect(input: Value, loads: string -> Outcome<Value>)
    ensures TryBlock(input, loads) == TryBlockWithoutStructuralCheck(input, loads)
  {
    if input.Str? && loads(input.s).Return? {
      var data := loads(input.s).value;
      if IsValidSalaryComparison(data).Raise? {
        assert NumericCheck(data) == Raise(TypeError);
      }
    }
  }

  /** main.py:60-63 with main.py:61 removed. */
  function TryBlockWithoutStructuralCheck(input: Value, loads: string -> Outcome<Value>): Outcome<(Value, bool)> {
    var text :- if input.Str? then Return(input.s) else Raise(TypeError);
    var data :- loads(text);
    var valid :- NumericCheck(data);
    Return((data, valid))
  }

  /** On a string that parses, the verdict is the ceiling check alone: valid
      exactly when both figures are numbers below 10000, whether or not the
      structural check would have passed. */
  lemma {:induction false} StringVerdictIsCeilingOnly(s: string, loads: string -> Outcome<Value>)
    requires loads(s).Return?
    ensures var r := ValidateAndConvertSalaryJson(Str(s), loads);
      r.Return? && r.value.1 <==> BelowCeiling(loads(s).value)
  {
    StructuralCheckHasNoEffect(Str(s), loads);
  }

  /** On a string that parses and whose figures can be compared, the result
      is the parsed value itself with the verdict of the ceiling check. */
  lemma StringPathReturnsParsed(s: string, loads: string -> Outcome<Value>)
    requires loads(s).Return? && NumericCheck(loads(s).value).Return?
    ensures ValidateAndConvertSalaryJson(Str(s), loads) == Return((loads(s).value, BelowCeiling(loads(s).value)))
  {
    StructuralCheckHasNoEffect(Str(s), loads);
  }

  /** On a dict, no numeric bound is applied: any pair of integer figures,
      however large or negative, is accepted. */
  lemma {:induction false} DictPathAcceptsAnyFigures(philippines: int, unitedStates: int, loads: string -> Outcome<Value>)
    ensures var section := Dict(map["philippines" := Int(philippines), "united_states" := Int(unitedStates)]);
      var data := Dict(map["salary_comparison" := section]);
      ValidateAndConvertSalaryJson(data, loads) == Return((data, true))
  {
  }

  /** On a dict, a `salary_comparison` that is merely a string mentioning
      both keys passes, since `in` on a string tests for a substring. */
  lemma DictPathAcceptsStringSection(loads: string -> Outcome<Value>)
    ensures var data := Dict(map["salary_comparison" := Str("philippines and united_states")]);
      ValidateAndConvertSalaryJson(data, loads) == Return((data, true))
  {
    var s := "philippines and united_states";
    assert OccursAt("philippines", s, 0);
    assert OccursAt("united_states", s, 16);
  }

  /** On a string whose JSON lacks `salary_comparison`, the `KeyError` of
      main.py:62 escapes the handler at main.py:64. */
  lemma MissingSectionEscapes(s: string, loads: string -> Outcome<Value>)
    requires loads(s).Return? && loads(s).value.Dict? && "salary_comparison" !in loads(s).value.fields
    ensures ValidateAndConvertSalaryJson(Str(s), loads) == Raise(KeyError)
  {
  }
}
