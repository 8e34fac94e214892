/**
 * The rule catalog `allRules`: numeric conversion (1), rounding (2),
 * conditional fill of a yield column (3) and trimming (4).
 * JavaScript's number parsing, number formatting and rounding are not
 * modelled; rules 1 and 2 receive them as a `NumericOps` record, so only
 * their guards and their string normalisation are stated here.
 */
module Rules {
  import opened Wrappers
  import opened Rows
  import opened Types
  import opened Strings

  /** The numeric primitives of the host; `None` stands for `NaN`. */
  datatype NumericOps = NumericOps(
    parseFloat: string -> Option<real>,
    stringToNumber: string -> Option<real>,
    numberToString: real -> string,
    round: real -> real)

  /** `String(v)`: only the empty string and a number can print as `""`. */
  function ToJsString(ops: NumericOps, v: Value): (r: string)
    ensures v.Str? ==> r == v.s
    ensures v.Num? ==> r == ops.numberToString(v.n)
    ensures v == Bool(true) ==> r == "true"
    ensures v == Bool(false) ==> r == "false"
    ensures v == Null ==> r == "null"
    ensures v == Undefined ==> r == "undefined"
    ensures r == "" ==> v == Str("") || v.Num?
  {
    match v
    case Str(s) => s
    case Num(n) => ops.numberToString(n)
    case Bool(b) => if b then "true" else "false"
    case Null => "null"
    case Undefined => "undefined"
  }

  /**
   * The number `isNaN(v)` and `Math.round(v)` coerce `v` to (`Number(v)`):
   * only a string or `undefined` can give `NaN`.
   */
  function ToNumber(ops: NumericOps, v: Value): (r: Option<real>)
    ensures v.Str? ==> r == ops.stringToNumber(v.s)
    ensures v.Num? ==> r == Some(v.n)
    ensures v == Bool(true) ==> r == Some(1.0)
    ensures v == Bool(false) || v == Null ==> r == Some(0.0)
    ensures v == Undefined ==> r == None
    ensures r.None? ==> v.Str? || v == Undefined
  {
    match v
    case Str(s) => ops.stringToNumber(s)
    case Num(n) => Some(n)
    case Bool(b) => Some(if b then 1.0 else 0.0)
    case Null => Some(0.0)
    case Undefined => None
  }

  /**
   * Rule 1's clean-up before parsing: trim, unquote, first comma to a dot.
   * Of the trimmed and unquoted text, the first comma becomes a dot and
   * every other character stays.
   */
  function NormalizeNumeric(s: string): (r: string)
    ensures var t := StripQuotes(Trim(s));
      && |r| == |t|
      && forall i :: 0 <= i < |t| ==> r[i] == if t[i] == ',' && ',' !in t[..i] then '.' else t[i]
  {
    var normalized := Trim(s);
    var normalized := StripQuotes(normalized);
    ReplaceFirst(normalized, ',', '.')
  }

  /** Rule 1, "convert the value to a number". */
  function ToNumberTransform(ops: NumericOps, value: Value): (r: Value)
    ensures IsNullish(value) || value == Str("") ==> r == value
    ensures !(IsNullish(value) || value == Str("")) ==>
      match ops.parseFloat(NormalizeNumeric(ToJsString(ops, value)))
      case None => r == value
      case Some(n) => r == Num(n)
  {
    if IsNullish(value) || value == Str("") then value
    else
      var num := ops.parseFloat(NormalizeNumeric(ToJsString(ops, value)));
      if num.None? then value else Num(num.value)
  }

  /** Rule 2, "round to an integer": `""` and values `isNaN` rejects stay. */
  function RoundTransform(ops: NumericOps, value: Value): (r: Value)
    ensures value == Str("") ==> r == value
    ensures value != Str("") && ToNumber(ops, value).None? ==> r == value
    ensures value != Str("") && ToNumber(ops, value).Some? ==>
      r == Num(ops.round(ToNumber(ops, value).value))
  {
    if value == Str("") then value
    else
      match ToNumber(ops, value)
      case None => value
      case Some(n) => Num(ops.round(n))
  }

  const YesterdayYield := "Надой за вчера"
  const AverageYield14Days := "Средний надой за 14 дней"
  const Yes := "Да"

  /**
   * `v.toString().trim() === ""` for a truthy `v`: only a string can print
   * as blank, since a truthy number or `true` prints as a non-blank literal.
   */
  predicate PrintsBlank(v: Value)
  {
    v.Str? && Trim(v.s) == ""
  }

  /**
   * Rule 3's condition: it needs a truthy 14-day average, and it holds
   * whenever the yesterday column is also falsy.
   */
  predicate FillYesCondition(row: Row): (c: bool)
    ensures c ==> Truthy(Get(row, AverageYield14Days))
    ensures !Truthy(Get(row, YesterdayYield)) && Truthy(Get(row, AverageYield14Days)) ==> c
    ensures Get(row, YesterdayYield).Num? || Get(row, YesterdayYield).Bool? ==>
      (c <==> !Truthy(Get(row, YesterdayYield)) && Truthy(Get(row, AverageYield14Days)))
  {
    var yesterday := Get(row, YesterdayYield);
    (!Truthy(yesterday) || PrintsBlank(yesterday)) && Truthy(Get(row, AverageYield14Days))
  }

  /** Rule 3's transform ignores both of its arguments. */
  function FillYesTransform(value: Value, row: Row): (r: Value)
    ensures r.Str? && r.s == Yes
  {
    Str(Yes)
  }

  /** Rule 4, "trim the edges": strings are trimmed, other values pass. */
  function TrimTransform(value: Value): (r: Value)
    ensures value.Str? ==> r == Str(Trim(value.s))
    ensures !value.Str? ==> r == value
  {
    if value.Str? then Str(Trim(value.s)) else value
  }

  const ToNumberDescription := "Привести значение к числу"
  const RoundDescription := "Округлить до целого"
  const FillYesDescription := "Если пусто, но есть 'Средний надой за 14 дней' — записать 'Да'"
  const TrimDescription := "Убрать пробелы по краям"

  /**
   * `allRules`: rules 1 to 4 in that order, so their ids are distinct; only
   * rule 3 has a condition, and each rule carries its transform.
   */
  function AllRules(ops: NumericOps): (r: seq<Rule>)
    ensures |r| == 4
    ensures forall i :: 0 <= i < |r| ==> r[i].id == i + 1
    ensures forall i, j :: 0 <= i < j < |r| ==> r[i].id != r[j].id
    ensures forall i :: 0 <= i < |r| ==> (r[i].condition.Some? <==> r[i].id == 3)
    ensures r[2].condition == Some(FillYesCondition)
    ensures forall v, row :: r[0].transform(v, row) == ToNumberTransform(ops, v)
    ensures forall v, row :: r[1].transform(v, row) == RoundTransform(ops, v)
    ensures forall v, row :: r[2].transform(v, row) == FillYesTransform(v, row)
    ensures forall v, row :: r[3].transform(v, row) == TrimTransform(v)
  {
    [ Rule(1, ToNumberDescription, None, (v, row) => ToNumberTransform(ops, v)),
      Rule(2, RoundDescription, None, (v, row) => RoundTransform(ops, v)),
      Rule(3, FillYesDescription, Some(FillYesCondition), FillYesTransform),
      Rule(4, TrimDescription, None, (v, row) => TrimTransform(v)) ]
  }

  /**
   * Rule 3 fires exactly when the yesterday column is falsy or holds only
   * whitespace, and the 14-day average column is truthy.
   */
  lemma {:induction false} FillYesConditionIff(row: Row)
    ensures var yesterday := Get(row, YesterdayYield);
      FillYesCondition(row) <==>
        && (|| !Truthy(yesterday)
            || (yesterday.Str? && forall i :: 0 <= i < |yesterday.s| ==> IsWhitespace(yesterday.s[i])))
        && Truthy(Get(row, AverageYield14Days))
  {
    var yesterday := Get(row, YesterdayYield);
    if yesterday.Str? {
      TrimEmptyIffBlank(yesterday.s);
    }
  }

  /** Rule 4 applied twice is rule 4 applied once. */
  lemma {:induction false} TrimTransformIdempotent(value: Value)
    ensures TrimTransform(TrimTransform(value)) == TrimTransform(value)
  {
    if value.Str? {
      TrimIdempotent(value.s);
    }
  }

  /** Rule 1 on `"3,7"` parses `"3.7"`: the comma becomes a dot. */
  lemma {:induction false} NormalizeCommaExample()
    ensures NormalizeNumeric("3,7") == "3.7"
  {
    var s := "3,7";
    assert s[0] == '3' && s[1] == ',' && s[2] == '7';
    assert !IsWhitespace(s[0]) && !IsWhitespace(s[2]);
    assert TrimStart(s) == s;
    assert TrimEnd(s) == s;
    assert StripQuotes(s) == s;
    assert IndexOf(s, ',') == 1 by {
      assert s[1..][0] == ',';
    }
    assert s[..1] + ['.'] + s[2..] == "3.7";
  }

  /** Surrounding blanks go, then one pair of quotes, then the first comma only. */
  lemma {:induction false} NormalizeQuotedExample()
    ensures NormalizeNumeric(" \"1,5,0\" ") == "1.5,0"
  {
    var s := " \"1,5,0\" ";
    var q := "\"1,5,0\"";
    assert s[1..] == q + " ";
    assert !IsWhitespace('"');
    assert TrimStart(s[1..]) == s[1..];
    assert TrimStart(s) == q + " ";
    assert (q + " ")[..|q|] == q;
    assert TrimEnd(q) == q;
    assert TrimEnd(q + " ") == q;
    assert StripQuotes(q) == "1,5,0";
    assert IndexOf("1,5,0", ',') == 1;
  }
}
