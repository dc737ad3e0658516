/** Pulling a JSON object or a list literal out of a language model's free-form
    reply (main.py:22-47). The two library parsers, `json.loads` and
    `ast.literal_eval`, are parameters: each maps a text to the value it
    denotes or to the exception it raises. */
module Extraction {
  import opened Text
  import opened PyValues

  /** `i` is the first `{` of `text`, `j` its last `}`, and `i` comes first. */
  predicate BraceSpan(text: string, i: int, j: int) {
    && 0 <= i < j < |text|
    && text[i] == '{' && (forall k :: 0 <= k < i ==> text[k] != '{')
    && text[j] == '}' && (forall k :: j < k < |text| ==> text[k] != '}')
  }

  /** The brace span is exactly what `find('{')` and `rfind('}')` locate. */
  lemma BraceSpanFromFind(text: string, i: int, j: int)
    ensures BraceSpan(text, i, j) <==> i == Find(text, '{') && j == RFind(text, '}') && 0 <= i < j
  {
  }

  /** `extract_and_parse_json`: slice from the first `{` to the last `}`
      inclusive and parse the slice with `loads`; `(None, False)` when either
      brace is missing, when the last `}` precedes the first `{`, or when the
      slice is not valid JSON. Any other exception of `loads` propagates. */
  function ExtractAndParseJson(text: string, loads: string -> Outcome<Value>): (r: Outcome<(Value, bool)>)
    ensures r.Return? && !r.value.1 ==> r.value.0 == Null
  {
    var start := Find(text, '{');
    var end := RFind(text, '}');
    if start == -1 || end == -1 || end < start then
      Return((Null, false))
    else
      match loads(text[start..end + 1])
      case Return(v) => Return((v, true))
      case Raise(e) => if e == JSONDecodeError then Return((Null, false)) else Raise(e)
  }

  /** Without a `{` that some later `}` follows, the result is `(None, False)`
      and `loads` is never consulted. */
  lemma {:induction false} ParseJsonWithoutBraces(text: string, loads: string -> Outcome<Value>)
    requires forall a, b :: 0 <= a < b < |text| && text[a] == '{' ==> text[b] != '}'
    ensures ExtractAndParseJson(text, loads) == Return((Null, false))
  {
    var start, end := Find(text, '{'), RFind(text, '}');
    assert !(0 <= start < end);
  }

  /** With a brace span, the result is what `loads` makes of exactly that
      slice, which opens with `{` and closes with `}`: the value and True, or
      `(None, False)` on a decoding error; any other exception escapes. */
  lemma {:induction false} ParseJsonOfSpan(text: string, loads: string -> Outcome<Value>, i: int, j: int)
    requires BraceSpan(text, i, j)
    ensures var slice := text[i..j + 1];
      && slice[0] == '{' && slice[|slice| - 1] == '}'
      && ExtractAndParseJson(text, loads) ==
           match loads(slice)
           case Return(v) => Return((v, true))
           case Raise(e) => if e == JSONDecodeError then Return((Null, false)) else Raise(e)
  {
    BraceSpanFromFind(text, i, j);
  }

  /** Anything but `(None, False)` comes from a brace span. */
  lemma {:induction false} ParsedJsonHasSpan(text: string, loads: string -> Outcome<Value>)
    ensures ExtractAndParseJson(text, loads) != Return((Null, false)) ==> exists i, j :: BraceSpan(text, i, j)
  {
    var start, end := Find(text, '{'), RFind(text, '}');
    BraceSpanFromFind(text, start, end);
  }

  /** `i` is the first `[` of `text` and `j` the nearest `]` after it: the
      leftmost match of the non-greedy pattern `\[.*?\]` under DOTALL. */
  predicate BracketSpan(text: string, i: int, j: int) {
    && 0 <= i < j < |text|
    && text[i] == '[' && (forall k :: 0 <= k < i ==> text[k] != '[')
    && text[j] == ']' && (forall k :: i < k < j ==> text[k] != ']')
  }

  /** The bracket span is the first `[` and the first `]` after it. */
  lemma BracketSpanFromFind(text: string, i: int, j: int)
    ensures BracketSpan(text, i, j) <==>
      0 <= i && i == Find(text, '[') && Find(text[i + 1..], ']') >= 0 && j == i + 1 + Find(text[i + 1..], ']')
  {
  }

  /** `extract_and_convert_list`: evaluate the leftmost `[...]` span with
      `literalEval` and keep the result only when it is a list. `None` when
      there is no `[` with a `]` after it, when evaluation raises `SyntaxError`
      or `ValueError`, or when the value is not a list; any other exception
      propagates. */
  function ExtractAndConvertList(text: string, literalEval: string -> Outcome<Value>): (r: Outcome<Option<seq<Value>>>)
    ensures r.Raise? ==> r.exc != SyntaxError && r.exc != ValueError
  {
    var start := Find(text, '[');
    if start == -1 then
      Return(None)
    else
      var close := Find(text[start + 1..], ']');
      if close == -1 then
        Return(None)
      else
        match literalEval(text[start..start + 1 + close + 1])
        case Return(v) => Return(if v.List? then Some(v.items) else None)
        case Raise(e) => if e == SyntaxError || e == ValueError then Return(None) else Raise(e)
  }

  /** Without a `[` that some later `]` follows, the result is `None` and
      `literalEval` is never consulted. */
  lemma {:induction false} ListWithoutBrackets(text: string, literalEval: string -> Outcome<Value>)
    requires forall a, b :: 0 <= a < b < |text| && text[a] == '[' ==> text[b] != ']'
    ensures ExtractAndConvertList(text, literalEval) == Return(None)
  {
    var start := Find(text, '[');
    if start != -1 {
      var rest := text[start + 1..];
      assert forall k :: 0 <= k < |rest| ==> rest[k] == text[start + 1 + k];
    }
  }

  /** With a bracket span, the result is what `literalEval` makes of exactly
      that slice, which opens with `[` and closes with `]`: its items when it
      is a list, `None` for any other value or for `SyntaxError` and
      `ValueError`; any other exception escapes. */
  lemma {:induction false} ListOfSpan(text: string, literalEval: string -> Outcome<Value>, i: int, j: int)
    requires BracketSpan(text, i, j)
    ensures var slice := text[i..j + 1];
      && slice[0] == '[' && slice[|slice| - 1] == ']'
      && ExtractAndConvertList(text, literalEval) ==
           match literalEval(slice)
           case Return(v) => Return(if v.List? then Some(v.items) else None)
           case Raise(e) => if e == SyntaxError || e == ValueError then Return(None) else Raise(e)
  {
    BracketSpanFromFind(text, i, j);
    var close := Find(text[i + 1..], ']');
    assert j + 1 == i + 1 + close + 1;
  }

  /** Anything but `None` comes from a bracket span. */
  lemma {:induction false} ConvertedListHasSpan(text: string, literalEval: string -> Outcome<Value>)
    requires ExtractAndConvertList(text, literalEval) != Return(None)
    ensures exists i, j :: BracketSpan(text, i, j)
  {
    var start := Find(text, '[');
    var close := Find(text[start + 1..], ']');
    BracketSpanFromFind(text, start, start + 1 + close);
  }
}
