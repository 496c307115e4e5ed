/** Evaluating a settlement condition: the Rust verifier and the Python one reach the same verdict or both refuse, and
    the verdict depends only on what the values mean. */
module Condition {
  import opened Wrappers
  import opened TextOrder
  import opened Decimal

  datatype Value =
    | IntegerValue(text: string)
    | DecimalValue(text: string)
    | TextValue(text: string)
    | BooleanValue(flag: bool)
    | TimestampValue(text: string)
    | HashValue(text: string)

  datatype Operand = Literal(value: Value) | Reference(id: string)

  datatype Relation = Eq | Neq | Lt | Lte | Gt | Gte

  datatype Node =
    | All(args: seq<Node>)
    | AnyOf(args: seq<Node>)
    | Not(arg: Node)
    | Compare(relation: Relation, left: Operand, right: Operand)
    | Between(value: Operand, lower: Operand, upper: Operand, inclusive: bool)

  datatype EvaluationError = IncompatibleTypes | MissingObservation | ReversedBounds

  type Observations = map<string, Value>

  // ---------- Validated values ----------

  predicate UnsignedInteger(s: string) {
    s != "" && Digits(s) && (s == "0" || s[0] != '0')
  }

  predicate IsInteger(s: string) {
    0 < |s| <= 78 && UnsignedInteger(Strip(s))
  }

  predicate IsDecimal(s: string) {
    && 0 < |s| <= 128
    && PointAt(Strip(s)) < |Strip(s)|
    && UnsignedInteger(Whole(Strip(s)))
    && Fraction(Strip(s)) != "" && Digits(Fraction(Strip(s)))
  }

  predicate ValidValue(v: Value) {
    match v
    case IntegerValue(s) => IsInteger(s)
    case DecimalValue(s) => IsDecimal(s)
    case TimestampValue(s) => 0 < |s| <= 20 && Digits(s)
    case TextValue(s) => |s| <= 4096
    case HashValue(s) => IsHash(s)
    case BooleanValue(_) => true
  }

  /** The prefix and 64 hexadecimal digits in either case. */
  predicate IsHash(s: string) {
    |s| == 66 && s[..2] == "0x" && forall i :: 2 <= i < 66 ==> HexDigit(s[i])
  }

  predicate HexDigit(c: char) {
    '0' <= c <= '9' || 'a' <= c <= 'f' || 'A' <= c <= 'F'
  }

  predicate ValidOperand(o: Operand) {
    o.Literal? ==> ValidValue(o.value)
  }

  predicate ValidNode(n: Node) {
    match n
    case All(args) => forall i :: 0 <= i < |args| ==> ValidNode(args[i])
    case AnyOf(args) => forall i :: 0 <= i < |args| ==> ValidNode(args[i])
    case Not(arg) => ValidNode(arg)
    case Compare(_, left, right) => ValidOperand(left) && ValidOperand(right)
    case Between(value, lower, upper, _) => ValidOperand(value) && ValidOperand(lower) && ValidOperand(upper)
  }

  predicate ValidObservations(obs: Observations) {
    forall id :: id in obs ==> ValidValue(obs[id])
  }

  predicate Numeric(v: Value) {
    v.IntegerValue? || v.DecimalValue?
  }

  /** A natural number in digits, without leading zeros. */
  function Written(n: nat): string {
    var last := [(n % 10 + '0' as int) as char];
    if n < 10 then last else Written(n / 10) + last
  }

  lemma {:induction false} WrittenReadsBack(n: nat)
    ensures UnsignedInteger(Written(n)) && DigitsValue(Written(n)) == n
    ensures n > 0 ==> Written(n)[0] != '0'
  {
    if n >= 10 {
      WrittenReadsBack(n / 10);
      assert Written(n)[..|Written(n)| - 1] == Written(n / 10);
    } else {
      assert Written(n)[..0] == "";
    }
  }

  lemma {:induction false} WrittenIsRead(s: string)
    requires UnsignedInteger(s)
    ensures s == Written(DigitsValue(s))
  {
    var front, last := s[..|s| - 1], s[|s| - 1];
    assert s == front + [last];
    if front != "" {
      assert s[0] != '0' && front[0] == s[0];
      WrittenIsRead(front);
      FrontIsPositive(front);
      assert DigitsValue(s) / 10 == DigitsValue(front) && DigitsValue(s) % 10 == last as int - '0' as int;
    }
  }

  lemma FrontIsPositive(s: string)
    requires s != "" && Digits(s) && s[0] != '0'
    ensures DigitsValue(s) > 0
  {
    ValueFromLeft(s);
    AtLeastOnce(s[0] as int - '0' as int, Pow10(|s| - 1));
  }

  /** The whole numbers accepted are the written natural numbers. */
  lemma UnsignedExactly(s: string)
    ensures UnsignedInteger(s) <==> exists n: nat :: s == Written(n)
  {
    if UnsignedInteger(s) {
      WrittenIsRead(s);
    }
    forall n: nat | s == Written(n)
      ensures UnsignedInteger(s)
    {
      WrittenReadsBack(n);
    }
  }

  /** The integers are a sign and a whole number without leading zeros, within 78 characters. */
  lemma IntegerExactly(s: string)
    ensures IsInteger(s)
       <==> |s| <= 78 && exists negative, whole :: UnsignedInteger(whole) && s == Spelling(negative, whole, false, "")
  {
    if IsInteger(s) {
      NoPoint(Strip(s));
      NumeralIsSpelled(s);
    }
    forall negative, whole | UnsignedInteger(whole) && s == Spelling(negative, whole, false, "")
      ensures UnsignedInteger(Strip(s)) && s != ""
    {
      NumeralMeans(negative, whole, false, "");
      assert Strip(s) == whole;
    }
  }

  /** The decimals have a point and at least one digit behind it as well, within 128 characters. */
  lemma DecimalExactly(s: string)
    ensures IsDecimal(s)
       <==> |s| <= 128 && exists negative, whole, fraction ::
              UnsignedInteger(whole) && fraction != "" && Digits(fraction) && s == Spelling(negative, whole, true, fraction)
  {
    if IsDecimal(s) {
      NumeralIsSpelled(s);
    }
    forall negative, whole, fraction |
      UnsignedInteger(whole) && fraction != "" && Digits(fraction) && s == Spelling(negative, whole, true, fraction)
      ensures |s| <= 128 ==> IsDecimal(s)
    {
      NumeralMeans(negative, whole, true, fraction);
    }
  }

  lemma DigitsListed(c: char)
    ensures HexDigit(c) <==> c in "0123456789abcdefABCDEF"
  {
    var all := "0123456789abcdefABCDEF";
    assert all[0] == '0' && all[1] == '1' && all[2] == '2' && all[3] == '3' && all[4] == '4' && all[5] == '5';
    assert all[6] == '6' && all[7] == '7' && all[8] == '8' && all[9] == '9' && all[10] == 'a' && all[11] == 'b';
    assert all[12] == 'c' && all[13] == 'd' && all[14] == 'e' && all[15] == 'f' && all[16] == 'A' && all[17] == 'B';
    assert all[18] == 'C' && all[19] == 'D' && all[20] == 'E' && all[21] == 'F';
  }

  lemma HashExactly(s: string)
    ensures IsHash(s)
       <==> exists digits :: |digits| == 64 && s == "0x" + digits
              && forall i :: 0 <= i < 64 ==> digits[i] in "0123456789abcdefABCDEF"
  {
    hide HexDigit;
    if IsHash(s) {
      var digits := s[2..];
      assert s == "0x" + digits;
      forall i | 0 <= i < 64
        ensures digits[i] in "0123456789abcdefABCDEF"
      {
        DigitsListed(s[i + 2]);
      }
    }
    forall digits | |digits| == 64 && s == "0x" + digits
                    && forall i :: 0 <= i < 64 ==> digits[i] in "0123456789abcdefABCDEF"
      ensures IsHash(s)
    {
      forall i | 2 <= i < 66
        ensures HexDigit(s[i])
      {
        assert s[i] == digits[i - 2];
        DigitsListed(s[i]);
      }
    }
  }

  /** The values that validation lets through, kind by kind. */
  lemma ValidExactly(v: Value)
    ensures ValidValue(v)
       <==> match v
            case BooleanValue(_) => true
            case IntegerValue(s) =>
              |s| < 79 && exists negative, n: nat :: s == Spelling(negative, Written(n), false, "")
            case DecimalValue(s) =>
              |s| < 129 && exists negative, n: nat, fraction ::
                fraction != "" && Digits(fraction) && s == Spelling(negative, Written(n), true, fraction)
            case TimestampValue(s) => 1 <= |s| && |s| < 21 && Digits(s)
            case TextValue(s) => |s| < 4097
            case HashValue(s) => exists digits :: |digits| == 64 && s == "0x" + digits
                                   && forall i :: 0 <= i < 64 ==> digits[i] in "0123456789abcdefABCDEF"
  {
    match v
    case IntegerValue(s) =>
      IntegerExactly(s);
      if IsInteger(s) {
        var negative, whole :| UnsignedInteger(whole) && s == Spelling(negative, whole, false, "");
        UnsignedExactly(whole);
      }
      forall negative, n: nat | s == Spelling(negative, Written(n), false, "")
        ensures exists whole :: UnsignedInteger(whole) && s == Spelling(negative, whole, false, "")
      {
        WrittenReadsBack(n);
      }
    case DecimalValue(s) =>
      DecimalExactly(s);
      if IsDecimal(s) {
        var negative, whole, fraction :|
          UnsignedInteger(whole) && fraction != "" && Digits(fraction) && s == Spelling(negative, whole, true, fraction);
        UnsignedExactly(whole);
      }
      forall negative, n: nat, fraction |
        fraction != "" && Digits(fraction) && s == Spelling(negative, Written(n), true, fraction)
        ensures exists whole :: UnsignedInteger(whole) && s == Spelling(negative, whole, true, fraction)
      {
        WrittenReadsBack(n);
      }
    case HashValue(s) => HashExactly(s);
    case _ =>
  }

  lemma NumericIsNumeral(v: Value)
    requires ValidValue(v) && Numeric(v)
    ensures Numeral(v.text)
  {
    if v.IntegerValue? {
      NoPoint(Strip(v.text));
    }
  }

  lemma {:induction false} NoPoint(s: string)
    requires Digits(s)
    ensures PointAt(s) == |s|
  {
    if s != "" {
      NoPoint(s[1..]);
    }
  }

  function Lower(s: string): string {
    if s == "" then ""
    else [if 'A' <= s[0] <= 'Z' then s[0] - 'A' + 'a' else s[0]] + Lower(s[1..])
  }

  // ---------- The Rust evaluator ----------

  function SameKind(v: Value, w: Value): bool {
    match v
    case TextValue(_) => w.TextValue?
    case BooleanValue(_) => w.BooleanValue?
    case TimestampValue(_) => w.TimestampValue?
    case HashValue(_) => w.HashValue?
    case _ => Numeric(w)
  }

  function CompareValues(v: Value, w: Value): Result<Ordering, EvaluationError> {
    if !SameKind(v, w) then Err(IncompatibleTypes)
    else match v
      case BooleanValue(b) => Ok(if b == w.flag then Equal else if w.flag then Less else Greater)
      case TimestampValue(s) => Ok(CompareUnsigned(s, w.text))
      case HashValue(s) => Ok(CompareText(Lower(s), Lower(w.text)))
      case TextValue(s) => Ok(CompareText(s, w.text))
      case _ => Ok(CompareNumeric(v.text, w.text))
  }

  function Resolve(o: Operand, obs: Observations): Result<Value, EvaluationError> {
    match o
    case Literal(v) => Ok(v)
    case Reference(id) => if id in obs then Ok(obs[id]) else Err(MissingObservation)
  }

  function Holds(relation: Relation, o: Ordering): bool {
    match relation
    case Eq => o == Equal
    case Neq => o != Equal
    case Lt => o == Less
    case Lte => o != Greater
    case Gt => o == Greater
    case Gte => o != Less
  }

  function EvaluateCompare(relation: Relation, left: Operand, right: Operand, obs: Observations)
    : Result<bool, EvaluationError>
  {
    var v, w := Resolve(left, obs), Resolve(right, obs);
    if v.Err? then Err(v.error)
    else if w.Err? then Err(w.error)
    else match CompareValues(v.value, w.value)
      case Err(e) => Err(e)
      case Ok(o) => Ok(Holds(relation, o))
  }

  function EvaluateBetween(value: Operand, lower: Operand, upper: Operand, inclusive: bool, obs: Observations)
    : Result<bool, EvaluationError>
  {
    var v, lo, hi := Resolve(value, obs), Resolve(lower, obs), Resolve(upper, obs);
    if v.Err? then Err(v.error)
    else if lo.Err? then Err(lo.error)
    else if hi.Err? then Err(hi.error)
    else
      var bounds := CompareValues(lo.value, hi.value);
      if bounds.Err? then Err(bounds.error)
      else if bounds.value == Greater then Err(ReversedBounds)
      else
        var low, high := CompareValues(v.value, lo.value), CompareValues(v.value, hi.value);
        if low.Err? then Err(low.error)
        else if high.Err? then Err(high.error)
        else Ok(if inclusive then low.value != Less && high.value != Greater
                else low.value == Greater && high.value == Less)
  }

  function Evaluate(n: Node, obs: Observations): Result<bool, EvaluationError>
    decreases n, 0
  {
    match n
    case All(args) => EvaluateAll(args, obs)
    case AnyOf(args) => EvaluateAny(args, obs)
    case Not(arg) => (match Evaluate(arg, obs) case Err(e) => Err(e) case Ok(b) => Ok(!b))
    case Compare(relation, left, right) => EvaluateCompare(relation, left, right, obs)
    case Between(value, lower, upper, inclusive) => EvaluateBetween(value, lower, upper, inclusive, obs)
  }

  function EvaluateAll(args: seq<Node>, obs: Observations): Result<bool, EvaluationError>
    decreases args, |args| + 1
  {
    if args == [] then Ok(true)
    else match Evaluate(args[0], obs)
      case Err(e) => Err(e)
      case Ok(b) => if b then EvaluateAll(args[1..], obs) else Ok(false)
  }

  function EvaluateAny(args: seq<Node>, obs: Observations): Result<bool, EvaluationError>
    decreases args, |args| + 1
  {
    if args == [] then Ok(false)
    else match Evaluate(args[0], obs)
      case Err(e) => Err(e)
      case Ok(b) => if b then Ok(true) else EvaluateAny(args[1..], obs)
  }

  /** The evaluator as it runs: loops over the arguments that return early. */
  method EvaluateNode(n: Node, obs: Observations) returns (r: Result<bool, EvaluationError>)
    ensures r == Evaluate(n, obs)
    decreases n
  {
    match n
    case All(args) =>
      for i := 0 to |args|
        invariant EvaluateAll(args, obs) == EvaluateAll(args[i..], obs)
      {
        var child := EvaluateNode(args[i], obs);
        if child.Err? { return child; }
        if !child.value { return Ok(false); }
      }
      return Ok(true);
    case AnyOf(args) =>
      for i := 0 to |args|
        invariant EvaluateAny(args, obs) == EvaluateAny(args[i..], obs)
      {
        var child := EvaluateNode(args[i], obs);
        if child.Err? { return child; }
        if child.value { return Ok(true); }
      }
      return Ok(false);
    case Not(arg) =>
      var child := EvaluateNode(arg, obs);
      if child.Err? { return child; }
      return Ok(!child.value);
    case Compare(relation, left, right) => return EvaluateCompare(relation, left, right, obs);
    case Between(value, lower, upper, inclusive) => return EvaluateBetween(value, lower, upper, inclusive, obs);
  }

  // ---------- The Python evaluator ----------

  /** -1, 0 or 1; None is a raised error. */
  function PyCompareValues(v: Value, w: Value): Option<int>
    requires ValidValue(v) && ValidValue(w)
  {
    if Numeric(v) != Numeric(w) then None
    else if Numeric(v) then
      NumericIsNumeral(v);
      NumericIsNumeral(w);
      var difference := Numerator(v.text) * Denominator(w.text) - Numerator(w.text) * Denominator(v.text);
      Some(if difference < 0 then -1 else if difference > 0 then 1 else 0)
    else if !SameKind(v, w) then None
    else match v
      case BooleanValue(b) => Some(if b == w.flag then 0 else if b then 1 else -1)
      case TimestampValue(s) =>
        var left, right := DigitsValue(s), DigitsValue(w.text);
        Some(if left < right then -1 else if left > right then 1 else 0)
      case HashValue(s) => Some(PyCompareText(Lower(s), Lower(w.text)))
      case TextValue(s) => Some(PyCompareText(s, w.text))
  }

  /** Python's order on strings, by code point. */
  function PyCompareText(a: string, b: string): int {
    if TextBelow(a, b) then -1 else if TextBelow(b, a) then 1 else 0
  }

  predicate TextBelow(a: string, b: string) {
    exists n :: 0 <= n <= |a| && n < |b| && a[..n] == b[..n] && (n == |a| || a[n] < b[n])
  }

  function PyResolve(o: Operand, obs: Observations): Option<Value> {
    match o
    case Literal(v) => Some(v)
    case Reference(id) => if id in obs then Some(obs[id]) else None
  }

  function PyHolds(relation: Relation, comparison: int): bool {
    match relation
    case Eq => comparison == 0
    case Neq => comparison != 0
    case Lt => comparison < 0
    case Lte => comparison <= 0
    case Gt => comparison > 0
    case Gte => comparison >= 0
  }

  function PyEvaluate(n: Node, obs: Observations): Option<bool>
    requires ValidNode(n) && ValidObservations(obs)
    decreases n, 0
  {
    match n
    case All(args) => PyAll(args, obs)
    case AnyOf(args) => PyAny(args, obs)
    case Not(arg) =>
      var r := PyEvaluate(arg, obs);
      if r == None then None else Some(!r.value)
    case Compare(relation, left, right) =>
      var v, w := PyResolve(left, obs), PyResolve(right, obs);
      if v == None || w == None then None
      else
        var comparison := PyCompareValues(v.value, w.value);
        if comparison == None then None else Some(PyHolds(relation, comparison.value))
    case Between(value, lower, upper, inclusive) =>
      var v, lo, hi := PyResolve(value, obs), PyResolve(lower, obs), PyResolve(upper, obs);
      if v == None || lo == None || hi == None then None
      else
        var bounds := PyCompareValues(lo.value, hi.value);
        var low, high := PyCompareValues(v.value, lo.value), PyCompareValues(v.value, hi.value);
        if bounds == None || bounds.value > 0 || low == None || high == None then None
        else Some(if inclusive then low.value >= 0 && high.value <= 0 else low.value > 0 && high.value < 0)
  }

  function PyAll(args: seq<Node>, obs: Observations): Option<bool>
    requires (forall i :: 0 <= i < |args| ==> ValidNode(args[i])) && ValidObservations(obs)
    decreases args, |args| + 1
  {
    if args == [] then Some(true)
    else
      var first := PyEvaluate(args[0], obs);
      if first == None then None else if first.value then PyAll(args[1..], obs) else Some(false)
  }

  function PyAny(args: seq<Node>, obs: Observations): Option<bool>
    requires (forall i :: 0 <= i < |args| ==> ValidNode(args[i])) && ValidObservations(obs)
    decreases args, |args| + 1
  {
    if args == [] then Some(false)
    else
      var first := PyEvaluate(args[0], obs);
      if first == None then None else if first.value then Some(true) else PyAny(args[1..], obs)
  }

  // ---------- Agreement ----------

  function Sign(o: Ordering): int {
    match o
    case Less => -1
    case Equal => 0
    case Greater => 1
  }

  /** A boolean or a refusal, whatever the reason. */
  function Outcome<T>(r: Result<T, EvaluationError>): Option<T> {
    if r.Ok? then Some(r.value) else None
  }

  lemma {:induction false} TextsAgree(a: string, b: string)
    ensures PyCompareText(a, b) == Sign(CompareText(a, b))
  {
    if a == "" || b == "" {
      if a == "" && b != "" {
        assert a[..0] == b[..0];
        assert TextBelow(a, b);
      }
      if b == "" && a != "" {
        assert b[..0] == a[..0];
        assert TextBelow(b, a);
      }
    } else if a[0] == b[0] {
      TextsAgree(a[1..], b[1..]);
      BelowAfterHead(a, b);
      BelowAfterHead(b, a);
    } else {
      assert a[..0] == b[..0];
      assert a[0] < b[0] ==> TextBelow(a, b);
      assert b[0] < a[0] ==> TextBelow(b, a);
      DifferentHeads(a, b);
      DifferentHeads(b, a);
    }
  }

  lemma BelowAfterHead(a: string, b: string)
    requires a != "" && b != "" && a[0] == b[0]
    ensures TextBelow(a, b) <==> TextBelow(a[1..], b[1..])
  {
    if TextBelow(a, b) {
      var n :| 0 <= n <= |a| && n < |b| && a[..n] == b[..n] && (n == |a| || a[n] < b[n]);
      assert a[1..][..n - 1] == a[..n][1..] && b[1..][..n - 1] == b[..n][1..];
    }
    if TextBelow(a[1..], b[1..]) {
      var n :| 0 <= n <= |a[1..]| && n < |b[1..]| && a[1..][..n] == b[1..][..n] && (n == |a[1..]| || a[1..][n] < b[1..][n]);
      assert a[..n + 1] == [a[0]] + a[1..][..n] && b[..n + 1] == [b[0]] + b[1..][..n];
    }
  }

  lemma DifferentHeads(a: string, b: string)
    requires a != "" && b != "" && a[0] != b[0]
    ensures TextBelow(a, b) ==> a[0] < b[0]
  {
    if TextBelow(a, b) {
      var n :| 0 <= n <= |a| && n < |b| && a[..n] == b[..n] && (n == |a| || a[n] < b[n]);
      PrefixHead(a, b, n);
    }
  }

  lemma PrefixHead(a: string, b: string, n: nat)
    requires a != "" && b != "" && n <= |a| && n <= |b| && a[..n] == b[..n]
    ensures n > 0 ==> a[0] == b[0]
  {
    if n > 0 {
      assert a[..n][0] == b[..n][0];
    }
  }

  /** The two comparisons of values give the same sign or both refuse. */
  lemma ValuesAgree(v: Value, w: Value)
    requires ValidValue(v) && ValidValue(w)
    ensures PyCompareValues(v, w)
            == match CompareValues(v, w) case Err(_) => None case Ok(o) => Some(Sign(o))
  {
    hide CompareNumeric, CompareUnsigned, CompareText, PyCompareText, Lower, Numeral, Magnitude;
    if Numeric(v) && Numeric(w) {
      NumericIsNumeral(v);
      NumericIsNumeral(w);
      ComparisonsAgree(v.text, w.text);
    } else if SameKind(v, w) {
      match v
      case TimestampValue(s) => UnsignedCompares(s, w.text);
      case TextValue(s) => TextsAgree(s, w.text);
      case HashValue(s) => TextsAgree(Lower(s), Lower(w.text));
      case BooleanValue(_) =>
    }
  }

  lemma {:induction false} NodesAgree(n: Node, obs: Observations)
    requires ValidNode(n) && ValidObservations(obs)
    ensures Outcome(Evaluate(n, obs)) == PyEvaluate(n, obs)
    decreases n, 0
  {
    hide CompareValues, PyCompareValues;
    match n
    case All(args) => AllAgree(args, obs);
    case AnyOf(args) => AnyAgree(args, obs);
    case Not(arg) => NodesAgree(arg, obs);
    case Compare(_, left, right) => OperandsAgree(left, right, obs);
    case Between(value, lower, upper, _) =>
      OperandsAgree(lower, upper, obs);
      OperandsAgree(value, lower, obs);
      OperandsAgree(value, upper, obs);
  }

  lemma OperandsAgree(a: Operand, b: Operand, obs: Observations)
    requires ValidOperand(a) && ValidOperand(b) && ValidObservations(obs)
    ensures Outcome(Resolve(a, obs)) == PyResolve(a, obs) && Outcome(Resolve(b, obs)) == PyResolve(b, obs)
    ensures Resolve(a, obs).Ok? && Resolve(b, obs).Ok? ==>
              var v, w := Resolve(a, obs).value, Resolve(b, obs).value;
              && ValidValue(v) && ValidValue(w)
              && PyCompareValues(v, w) == match CompareValues(v, w) case Err(_) => None case Ok(o) => Some(Sign(o))
  {
    hide CompareValues, PyCompareValues, ValidValue;
    if Resolve(a, obs).Ok? && Resolve(b, obs).Ok? {
      ValuesAgree(Resolve(a, obs).value, Resolve(b, obs).value);
    }
  }

  lemma {:induction false} AllAgree(args: seq<Node>, obs: Observations)
    requires (forall i :: 0 <= i < |args| ==> ValidNode(args[i])) && ValidObservations(obs)
    ensures Outcome(EvaluateAll(args, obs)) == PyAll(args, obs)
    decreases args, |args| + 1
  {
    if args != [] {
      NodesAgree(args[0], obs);
      AllAgree(args[1..], obs);
    }
  }

  lemma {:induction false} AnyAgree(args: seq<Node>, obs: Observations)
    requires (forall i :: 0 <= i < |args| ==> ValidNode(args[i])) && ValidObservations(obs)
    ensures Outcome(EvaluateAny(args, obs)) == PyAny(args, obs)
    decreases args, |args| + 1
  {
    if args != [] {
      NodesAgree(args[0], obs);
      AnyAgree(args[1..], obs);
    }
  }

  // ---------- More observations ----------

  /** A verdict once reached stays, whatever observations are added. */
  lemma {:induction false} MoreObservations(n: Node, obs: Observations, more: Observations)
    requires Evaluate(n, obs).Ok? && forall id :: id in obs ==> id in more && more[id] == obs[id]
    ensures Evaluate(n, more) == Evaluate(n, obs)
    decreases n, 0
  {
    hide CompareValues;
    match n
    case All(args) => MoreForAll(args, obs, more);
    case AnyOf(args) => MoreForAny(args, obs, more);
    case Not(arg) => MoreObservations(arg, obs, more);
    case Compare(_, _, _) =>
    case Between(_, _, _, _) =>
  }

  lemma {:induction false} MoreForAll(args: seq<Node>, obs: Observations, more: Observations)
    requires EvaluateAll(args, obs).Ok? && forall id :: id in obs ==> id in more && more[id] == obs[id]
    ensures EvaluateAll(args, more) == EvaluateAll(args, obs)
    decreases args, |args| + 1
  {
    if args != [] {
      MoreObservations(args[0], obs, more);
      if Evaluate(args[0], obs).value {
        MoreForAll(args[1..], obs, more);
      }
    }
  }

  lemma {:induction false} MoreForAny(args: seq<Node>, obs: Observations, more: Observations)
    requires EvaluateAny(args, obs).Ok? && forall id :: id in obs ==> id in more && more[id] == obs[id]
    ensures EvaluateAny(args, more) == EvaluateAny(args, obs)
    decreases args, |args| + 1
  {
    if args != [] {
      MoreObservations(args[0], obs, more);
      if !Evaluate(args[0], obs).value {
        MoreForAny(args[1..], obs, more);
      }
    }
  }

  // ---------- Hashes ----------

  /** Equal characters, or one letter of the alphabet in its two cases. */
  predicate SameLetter(a: char, b: char) {
    || a == b
    || ('A' <= a <= 'Z' && b as int == a as int + 32)
    || ('A' <= b <= 'Z' && a as int == b as int + 32)
  }

  predicate SameButCase(s: string, t: string) {
    |s| == |t| && forall i :: 0 <= i < |s| ==> SameLetter(s[i], t[i])
  }

  /** Position n is the first at which two texts differ beyond case. */
  predicate PartAt(s: string, t: string, n: nat) {
    && n < |s| && n < |t| && !SameLetter(s[n], t[n])
    && forall i :: 0 <= i < n ==> SameLetter(s[i], t[i])
  }

  predicate Capital(c: char) {
    'A' <= c <= 'Z'
  }

  /** Two texts compare equal beyond case exactly when they are; else the first difference decides, by the small letters
      there, or the length when there is none. */
  lemma {:induction false} CaselessCompares(s: string, t: string)
    ensures CompareText(Lower(s), Lower(t)) == Equal <==> SameButCase(s, t)
    ensures forall n: nat, x: char, y: char ::
              PartAt(s, t, n) && SameLetter(s[n], x) && SameLetter(t[n], y) && !Capital(x) && !Capital(y) ==>
                CompareText(Lower(s), Lower(t)) == CompareInts(x as int, y as int)
    ensures (|s| < |t| && forall i :: 0 <= i < |s| ==> SameLetter(s[i], t[i])) ==>
              CompareText(Lower(s), Lower(t)) == Less
    ensures (|t| < |s| && forall i :: 0 <= i < |t| ==> SameLetter(s[i], t[i])) ==>
              CompareText(Lower(s), Lower(t)) == Greater
  {
    if s != "" && t != "" && SameLetter(s[0], t[0]) {
      CaselessCompares(s[1..], t[1..]);
      assert Lower(s)[1..] == Lower(s[1..]) && Lower(t)[1..] == Lower(t[1..]);
      assert SameButCase(s, t) <==> SameButCase(s[1..], t[1..]);
      assert forall n: nat :: n > 0 ==> (PartAt(s, t, n) <==> PartAt(s[1..], t[1..], n - 1));
    }
  }

  // ---------- Only the meaning counts ----------

  /** Values the comparison cannot tell apart. */
  predicate SameMeaning(v: Value, w: Value) {
    CompareValues(v, w) == Ok(Equal)
  }

  /** What that is, kind by kind: equal rational numbers, equal instants, equal texts, flags, or hashes up to case. */
  predicate MeansTheSame(v: Value, w: Value)
    requires ValidValue(v) && ValidValue(w)
  {
    match v
    case BooleanValue(b) => w == v
    case TextValue(s) => w == v
    case HashValue(s) => w.HashValue? && SameButCase(s, w.text)
    case TimestampValue(s) => w.TimestampValue? && DigitsValue(s) == DigitsValue(w.text)
    case _ =>
      Numeric(w) && (NumericIsNumeral(v); NumericIsNumeral(w);
                     Numerator(v.text) * Denominator(w.text) == Numerator(w.text) * Denominator(v.text))
  }

  lemma MeaningIs(v: Value, w: Value)
    requires ValidValue(v) && ValidValue(w)
    ensures SameMeaning(v, w) <==> MeansTheSame(v, w)
  {
    hide CompareNumeric, CompareUnsigned, CompareText, Lower, Numeral, Magnitude;
    ValuesAgree(v, w);
    match v
    case HashValue(s) => if w.HashValue? { CaselessCompares(s, w.text); }
    case TextValue(s) => if w.TextValue? { EqualTexts(s, w.text); }
    case _ =>
  }

  /** Values of the same meaning compare alike with every other value, on either side. */
  lemma MeaningDecides(v: Value, w: Value, x: Value)
    requires ValidValue(v) && ValidValue(w) && ValidValue(x) && SameMeaning(v, w)
    ensures CompareValues(v, x) == CompareValues(w, x) && CompareValues(x, v) == CompareValues(x, w)
  {
    hide CompareNumeric, CompareText, CompareUnsigned, Lower, Numeral;
    if Numeric(v) {
      NumericIsNumeral(v);
      NumericIsNumeral(w);
      if Numeric(x) {
        NumericIsNumeral(x);
        NumericOrder(v.text, w.text, x.text);
        NumericOrder(v.text, x.text, v.text);
        NumericOrder(w.text, x.text, w.text);
      }
    } else if SameKind(v, x) {
      match v
      case TimestampValue(s) =>
        UnsignedCompares(s, w.text);
        UnsignedCompares(s, x.text);
        UnsignedCompares(w.text, x.text);
        UnsignedCompares(x.text, s);
        UnsignedCompares(x.text, w.text);
      case TextValue(s) => EqualTexts(s, w.text);
      case HashValue(s) => EqualTexts(Lower(s), Lower(w.text));
      case BooleanValue(_) =>
    }
  }

  /** The same observations, each written as another numeral, timestamp or hash of the same meaning. */
  ghost predicate Rewritten(obs: Observations, other: Observations) {
    && obs.Keys == other.Keys && ValidObservations(obs) && ValidObservations(other)
    && forall id :: id in obs ==> SameMeaning(obs[id], other[id])
  }

  lemma RewrittenOperands(a: Operand, b: Operand, obs: Observations, other: Observations)
    requires ValidOperand(a) && ValidOperand(b) && Rewritten(obs, other)
    ensures Resolve(a, obs).Ok? <==> Resolve(a, other).Ok?
    ensures Resolve(b, obs).Ok? <==> Resolve(b, other).Ok?
    ensures Resolve(a, obs).Ok? && Resolve(b, obs).Ok? ==>
              CompareValues(Resolve(a, obs).value, Resolve(b, obs).value)
              == CompareValues(Resolve(a, other).value, Resolve(b, other).value)
  {
    hide CompareValues, ValidValue;
    if Resolve(a, obs).Ok? && Resolve(b, obs).Ok? {
      var v, v', w, w' :=
        Resolve(a, obs).value, Resolve(a, other).value, Resolve(b, obs).value, Resolve(b, other).value;
      MeansItself(v);
      MeansItself(w);
      MeaningDecides(v, v', w);
      MeaningDecides(w, w', v');
    }
  }

  lemma MeansItself(v: Value)
    requires ValidValue(v)
    ensures SameMeaning(v, v)
  {
    hide CompareNumeric, CompareText, CompareUnsigned, Lower, Numeral;
    match v
    case TimestampValue(s) => UnsignedCompares(s, s);
    case TextValue(s) => EqualTexts(s, s);
    case HashValue(s) => EqualTexts(Lower(s), Lower(s));
    case BooleanValue(_) =>
    case _ =>
      NumericIsNumeral(v);
      NumericOrder(v.text, v.text, v.text);
  }

  /** Rewriting observations without changing their meaning never changes the verdict. */
  lemma {:induction false} VerdictDependsOnMeaning(n: Node, obs: Observations, other: Observations)
    requires ValidNode(n) && Rewritten(obs, other)
    ensures Evaluate(n, other) == Evaluate(n, obs)
    decreases n, 0
  {
    hide CompareValues, Rewritten;
    match n
    case All(args) => MeaningForAll(args, obs, other);
    case AnyOf(args) => MeaningForAny(args, obs, other);
    case Not(arg) => VerdictDependsOnMeaning(arg, obs, other);
    case Compare(_, left, right) => RewrittenOperands(left, right, obs, other);
    case Between(value, lower, upper, _) =>
      RewrittenOperands(lower, upper, obs, other);
      RewrittenOperands(value, lower, obs, other);
      RewrittenOperands(value, upper, obs, other);
  }

  lemma {:induction false} MeaningForAll(args: seq<Node>, obs: Observations, other: Observations)
    requires (forall i :: 0 <= i < |args| ==> ValidNode(args[i])) && Rewritten(obs, other)
    ensures EvaluateAll(args, other) == EvaluateAll(args, obs)
    decreases args, |args| + 1
  {
    if args != [] {
      VerdictDependsOnMeaning(args[0], obs, other);
      MeaningForAll(args[1..], obs, other);
    }
  }

  lemma {:induction false} MeaningForAny(args: seq<Node>, obs: Observations, other: Observations)
    requires (forall i :: 0 <= i < |args| ==> ValidNode(args[i])) && Rewritten(obs, other)
    ensures EvaluateAny(args, other) == EvaluateAny(args, obs)
    decreases args, |args| + 1
  {
    if args != [] {
      VerdictDependsOnMeaning(args[0], obs, other);
      MeaningForAny(args[1..], obs, other);
    }
  }

  // ---------- What a verdict says ----------

  /** The rational numbers of two numerals, brought to one denominator. */
  function Left(v: Value, w: Value): int
    requires ValidValue(v) && Numeric(v) && Numeric(w)
  {
    NumericIsNumeral(v);
    Numerator(v.text) * Denominator(w.text)
  }

  lemma NumbersCompare(v: Value, w: Value)
    requires ValidValue(v) && ValidValue(w) && Numeric(v) && Numeric(w)
    ensures CompareValues(v, w) == Ok(CompareInts(Left(v, w), Left(w, v)))
  {
    hide CompareNumeric, Numeral, Magnitude;
    ValuesAgree(v, w);
  }

  /** A comparison of two numbers is the comparison of the rationals they stand for. */
  lemma ComparisonMeans(relation: Relation, v: Value, w: Value, obs: Observations)
    requires ValidValue(v) && ValidValue(w) && Numeric(v) && Numeric(w)
    ensures var r := Evaluate(Compare(relation, Literal(v), Literal(w)), obs);
            var m, n := Left(v, w), Left(w, v);
            match relation
            case Eq => r == Ok(m == n)
            case Neq => r == Ok(m != n)
            case Lt => r == Ok(m < n)
            case Lte => r == Ok(m <= n)
            case Gt => r == Ok(m > n)
            case Gte => r == Ok(m >= n)
  {
    hide CompareValues, Left, ValidValue;
    NumbersCompare(v, w);
  }

  /** A number lies between two others in the usual sense; bounds the wrong way round are refused. */
  lemma BetweenMeans(v: Value, low: Value, high: Value, inclusive: bool, obs: Observations)
    requires ValidValue(v) && ValidValue(low) && ValidValue(high) && Numeric(v) && Numeric(low) && Numeric(high)
    ensures Evaluate(Between(Literal(v), Literal(low), Literal(high), inclusive), obs)
         == if Left(high, low) < Left(low, high) then Err(ReversedBounds)
            else if inclusive then Ok(Left(low, v) <= Left(v, low) && Left(v, high) <= Left(high, v))
            else Ok(Left(low, v) < Left(v, low) && Left(v, high) < Left(high, v))
  {
    hide CompareValues, Left, ValidValue;
    NumbersCompare(low, high);
    NumbersCompare(v, low);
    NumbersCompare(v, high);
  }

  /** False comes before true, earlier timestamps before later ones, texts in code point order; nothing else compares. */
  lemma OrderMeans(v: Value, w: Value)
    requires ValidValue(v) && ValidValue(w)
    ensures CompareValues(v, w).Ok? <==> SameKind(v, w)
    ensures v.BooleanValue? && w.BooleanValue? ==> (CompareValues(v, w) == Ok(Less) <==> !v.flag && w.flag)
    ensures v.TimestampValue? && w.TimestampValue? ==>
              (CompareValues(v, w) == Ok(Less) <==> DigitsValue(v.text) < DigitsValue(w.text))
    ensures v.TextValue? && w.TextValue? ==> (CompareValues(v, w) == Ok(Less) <==> TextBelow(v.text, w.text))
    ensures SameKind(v, w) <==> (Numeric(v) && Numeric(w)) || (v.TextValue? && w.TextValue?)
                                || (v.BooleanValue? && w.BooleanValue?) || (v.TimestampValue? && w.TimestampValue?)
                                || (v.HashValue? && w.HashValue?)
  {
    hide CompareNumeric, CompareUnsigned, CompareText, Lower, Numeral, Magnitude, TextBelow;
    ValuesAgree(v, w);
  }

  /** Where every part has a verdict: all, any, and not, as usual. */
  lemma ConnectivesMean(args: seq<Node>, obs: Observations)
    requires forall i :: 0 <= i < |args| ==> Evaluate(args[i], obs).Ok?
    ensures Evaluate(All(args), obs) == Ok(forall i :: 0 <= i < |args| ==> Evaluate(args[i], obs).value)
    ensures Evaluate(AnyOf(args), obs) == Ok(exists i :: 0 <= i < |args| && Evaluate(args[i], obs).value)
    ensures |args| > 0 ==> Evaluate(Not(args[0]), obs) == Ok(!Evaluate(args[0], obs).value)
  {
    AllMeans(args, obs);
    AnyMeans(args, obs);
  }

  lemma {:induction false} AllMeans(args: seq<Node>, obs: Observations)
    requires forall i :: 0 <= i < |args| ==> Evaluate(args[i], obs).Ok?
    ensures EvaluateAll(args, obs) == Ok(forall i :: 0 <= i < |args| ==> Evaluate(args[i], obs).value)
  {
    if args != [] {
      AllMeans(args[1..], obs);
      assert forall i :: 1 <= i < |args| ==> args[i] == args[1..][i - 1];
    }
  }

  lemma {:induction false} AnyMeans(args: seq<Node>, obs: Observations)
    requires forall i :: 0 <= i < |args| ==> Evaluate(args[i], obs).Ok?
    ensures EvaluateAny(args, obs) == Ok(exists i :: 0 <= i < |args| && Evaluate(args[i], obs).value)
  {
    if args != [] {
      AnyMeans(args[1..], obs);
      assert forall i :: 1 <= i < |args| ==> args[i] == args[1..][i - 1];
    }
  }

  /** A comparison without a verdict lacks an observation, or compares things of different kinds. */
  lemma RefusalMeans(relation: Relation, a: Operand, b: Operand, obs: Observations)
    ensures var r := Evaluate(Compare(relation, a, b), obs);
            && (r == Err(MissingObservation) <==> Unseen(a, obs) || Unseen(b, obs))
            && (r == Err(IncompatibleTypes) <==>
                  && !Unseen(a, obs) && !Unseen(b, obs)
                  && !SameKind(Resolve(a, obs).value, Resolve(b, obs).value))
            && r != Err(ReversedBounds)
  {
  }

  predicate Unseen(o: Operand, obs: Observations) {
    o.Reference? && o.id !in obs
  }
}
