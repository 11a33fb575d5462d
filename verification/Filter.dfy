/** The predicate filter's comparisons on decimal strings of any length. */
module Filter {
  import opened Common
  import opened Lex

  datatype Json =
    | Null
    | Bool(b: bool)
    | Number(n: int)
    | Str(s: string)
    | Arr(items: seq<Json>)
    | Obj(fields: map<string, Json>)

  datatype Op = Eq | Ne | Gt | Gte | Lt | Lte | In

  // ---- the source's functions ----

  predicate IsDigit(c: char) {
    '0' <= c <= '9'
  }

  predicate AllDigits(s: string) {
    forall i :: 0 <= i < |s| ==> IsDigit(s[i])
  }

  function StripMinus(s: string): (bool, string) {
    if s != [] && s[0] == '-' then (true, s[1..]) else (false, s)
  }

  /** An optional minus sign followed by one or more digits. */
  predicate IsDecimal(s: string) {
    var mag := StripMinus(s).1;
    mag != [] && AllDigits(mag)
  }

  function DigitChar(d: nat): char
    requires d < 10
  {
    ('0' as int + d) as char
  }

  function NatToString(n: nat): string {
    if n < 10 then [DigitChar(n)] else NatToString(n / 10) + [DigitChar(n % 10)]
  }

  function IntToString(n: int): string {
    if n < 0 then "-" + NatToString(-n) else NatToString(n)
  }

  function NumStr(v: Json): Option<string> {
    match v
    case Number(n) => Some(IntToString(n))
    case Str(s) => if IsDecimal(s) then Some(s) else None
    case _ => None
  }

  function TrimZeros(s: string): string {
    if s != [] && s[0] == '0' then TrimZeros(s[1..]) else s
  }

  function SplitSign(s: string): (bool, string) {
    var (neg, mag) := StripMinus(s);
    var trimmed := TrimZeros(mag);
    if trimmed == [] then (false, "") else (neg, trimmed)
  }

  function CmpMagnitude(a: string, b: string): Order {
    match CompareInts(|a|, |b|)
    case Equal => CompareStrings(a, b)
    case o => o
  }

  function CmpDecimal(a: string, b: string): Order {
    var (aNeg, aMag) := SplitSign(a);
    var (bNeg, bMag) := SplitSign(b);
    match (aNeg, bNeg)
    case (false, true) => Greater
    case (true, false) => Less
    case (false, false) => CmpMagnitude(aMag, bMag)
    case (true, true) => CmpMagnitude(bMag, aMag)
  }

  predicate ValuesEq(lhs: Option<Json>, rhs: Option<Json>) {
    match (lhs, rhs)
    case (Some(a), Some(b)) =>
      (match (NumStr(a), NumStr(b))
       case (Some(x), Some(y)) => CmpDecimal(x, y) == Equal
       case _ => a == b)
    case _ => false
  }

  /** `Predicate::eval` once the record's field has been looked up. */
  predicate Eval(lhs: Option<Json>, op: Op, value: Json) {
    match op
    case Eq => ValuesEq(lhs, Some(value))
    case Ne => !ValuesEq(lhs, Some(value))
    case In => value.Arr? && exists i :: 0 <= i < |value.items| && ValuesEq(lhs, Some(value.items[i]))
    case _ =>
      if lhs.Some? && NumStr(value).Some? && NumStr(lhs.value).Some? then
        var c := CmpDecimal(NumStr(lhs.value).value, NumStr(value).value);
        match op
        case Gt => c == Greater
        case Gte => c != Less
        case Lt => c == Less
        case _ => c != Greater
      else false
  }

  /** Follows a dotted path, given as its segments. */
  function ResolvePath(rec: Json, path: seq<string>): Option<Json>
    decreases |path|
  {
    if path == [] then Some(rec)
    else if rec.Obj? && path[0] in rec.fields then ResolvePath(rec.fields[path[0]], path[1..])
    else None
  }

  // ---- what the strings denote ----

  function DigitValue(c: char): nat
    requires IsDigit(c)
  {
    c as int - '0' as int
  }

  function Magnitude(s: string): nat
    requires AllDigits(s)
  {
    if s == [] then 0 else 10 * Magnitude(s[..|s| - 1]) + DigitValue(s[|s| - 1])
  }

  /** The integer a decimal string stands for. */
  function Denotes(s: string): int
    requires IsDecimal(s)
  {
    var (neg, mag) := StripMinus(s);
    if neg then -(Magnitude(mag) as int) else Magnitude(mag)
  }

  predicate Numeric(v: Json) {
    v.Number? || (v.Str? && IsDecimal(v.s))
  }

  function ValueOf(v: Json): int
    requires Numeric(v)
  {
    if v.Number? then v.n else Denotes(v.s)
  }

  ghost function Pow10(n: nat): nat
    ensures Pow10(n) >= 1
  {
    if n == 0 then 1 else 10 * Pow10(n - 1)
  }

  // ---- magnitudes ----

  lemma {:induction false} MagnitudeFromFront(s: string)
    requires AllDigits(s) && s != []
    ensures Magnitude(s) == DigitValue(s[0]) * Pow10(|s| - 1) + Magnitude(s[1..])
  {
    if |s| == 1 {
      assert s[..0] == [] && s[1..] == [];
      assert Pow10(0) == 1;
    } else {
      var init := s[..|s| - 1];
      MagnitudeFromFront(init);
      assert s[1..][..|s| - 2] == init[1..];
      assert Pow10(|s| - 1) == 10 * Pow10(|s| - 2);
    }
  }

  lemma {:induction false} MagnitudeBound(s: string)
    requires AllDigits(s)
    ensures Magnitude(s) < Pow10(|s|)
  {
    if s != [] {
      MagnitudeBound(s[..|s| - 1]);
    }
  }

  lemma {:induction false} Pow10Monotone(m: nat, n: nat)
    requires m <= n
    ensures Pow10(m) <= Pow10(n)
  {
    if m < n {
      Pow10Monotone(m, n - 1);
    }
  }

  lemma {:induction false} TrimZerosKeepsMagnitude(s: string)
    requires AllDigits(s)
    ensures AllDigits(TrimZeros(s)) && Magnitude(TrimZeros(s)) == Magnitude(s)
    ensures TrimZeros(s) != [] ==> TrimZeros(s)[0] != '0'
  {
    if s != [] && s[0] == '0' {
      MagnitudeFromFront(s);
      TrimZerosKeepsMagnitude(s[1..]);
    }
  }

  lemma MultiplyMonotone(x: nat, y: nat, p: nat)
    requires x < y
    ensures x * p + p <= y * p
  {
    assert y * p == x * p + p + (y - x - 1) * p;
  }

  lemma LeadingDigitBound(s: string)
    requires AllDigits(s) && s != [] && s[0] != '0'
    ensures Magnitude(s) >= Pow10(|s| - 1)
  {
    MagnitudeFromFront(s);
    MultiplyMonotone(0, DigitValue(s[0]), Pow10(|s| - 1));
  }

  /** The leading digit decides, whatever the lower digits add. */
  lemma LeadingDigitDecides(x: nat, y: nat, p: nat, u: nat, v: nat)
    requires u < p && v < p && x != y
    ensures CompareInts(x, y) == CompareInts(x * p + u, y * p + v)
  {
    if x < y {
      MultiplyMonotone(x, y, p);
    } else {
      MultiplyMonotone(y, x, p);
    }
  }

  lemma {:induction false} EqualLengthCompare(a: string, b: string)
    requires AllDigits(a) && AllDigits(b) && |a| == |b|
    ensures CompareStrings(a, b) == CompareInts(Magnitude(a), Magnitude(b))
  {
    if a != [] {
      MagnitudeFromFront(a);
      MagnitudeFromFront(b);
      MagnitudeBound(a[1..]);
      MagnitudeBound(b[1..]);
      EqualLengthCompare(a[1..], b[1..]);
      if a[0] != b[0] {
        LeadingDigitDecides(DigitValue(a[0]), DigitValue(b[0]), Pow10(|a| - 1), Magnitude(a[1..]), Magnitude(b[1..]));
      }
    }
  }

  lemma CmpMagnitudeIsOrder(a: string, b: string)
    requires AllDigits(a) && (a != [] ==> a[0] != '0')
    requires AllDigits(b) && (b != [] ==> b[0] != '0')
    ensures CmpMagnitude(a, b) == CompareInts(Magnitude(a), Magnitude(b))
  {
    if |a| == |b| {
      EqualLengthCompare(a, b);
    } else {
      var (lo, hi) := if |a| < |b| then (a, b) else (b, a);
      MagnitudeBound(lo);
      Pow10Monotone(|lo|, |hi| - 1);
      LeadingDigitBound(hi);
    }
  }

  // ---- main results ----

  /** Decimal comparison is integer comparison, for every length, sign and number of leading zeros. */
  lemma CmpDecimalIsIntegerOrder(a: string, b: string)
    requires IsDecimal(a) && IsDecimal(b)
    ensures CmpDecimal(a, b) == CompareInts(Denotes(a), Denotes(b))
  {
    var (aNeg, aMag) := StripMinus(a);
    var (bNeg, bMag) := StripMinus(b);
    TrimZerosKeepsMagnitude(aMag);
    TrimZerosKeepsMagnitude(bMag);
    var x, y := TrimZeros(aMag), TrimZeros(bMag);
    if x != [] { LeadingDigitBound(x); }
    if y != [] { LeadingDigitBound(y); }
    CmpMagnitudeIsOrder(x, y);
    CmpMagnitudeIsOrder(y, x);
  }

  lemma {:induction false} NatToStringRoundTrip(n: nat)
    ensures NatToString(n) != [] && AllDigits(NatToString(n)) && Magnitude(NatToString(n)) == n
  {
    var s := NatToString(n);
    if n < 10 {
      assert s[..0] == [];
    } else {
      NatToStringRoundTrip(n / 10);
      assert s[..|s| - 1] == NatToString(n / 10);
    }
  }

  /** `num_str` accepts exactly the numeric values and keeps the integer they denote. */
  lemma NumStrKeepsValue(v: Json)
    ensures NumStr(v).Some? <==> Numeric(v)
    ensures Numeric(v) ==> IsDecimal(NumStr(v).value) && Denotes(NumStr(v).value) == ValueOf(v)
  {
    if v.Number? {
      var mag := if v.n < 0 then -v.n else v.n;
      NatToStringRoundTrip(mag);
      var s := IntToString(v.n);
      if v.n < 0 {
        assert s[1..] == NatToString(mag);
      } else {
        assert IsDigit(s[0]);
      }
    }
  }

  /** Each ordering predicate and `eq`/`ne` is the integer relation when both operands are numeric. */
  lemma EvalIsIntegerRelation(lhs: Json, op: Op, value: Json)
    requires Numeric(lhs) && Numeric(value) && op != In
    ensures Eval(Some(lhs), op, value) <==>
            var (x, y) := (ValueOf(lhs), ValueOf(value));
            match op
            case Eq => x == y
            case Ne => x != y
            case Gt => x > y
            case Gte => x >= y
            case Lt => x < y
            case _ => x <= y
  {
    NumStrKeepsValue(lhs);
    NumStrKeepsValue(value);
    CmpDecimalIsIntegerOrder(NumStr(lhs).value, NumStr(value).value);
  }

  /** Values are the same: as integers when both are numeric, by structure otherwise. */
  ghost predicate SameValue(a: Json, b: Json) {
    if Numeric(a) && Numeric(b) then ValueOf(a) == ValueOf(b) else a == b
  }

  /** What every operator means on every field and operand: a missing field passes `ne` only, and an
      ordering passes only on two numeric operands. */
  lemma EvalMeaning(lhs: Option<Json>, op: Op, value: Json)
    ensures lhs.None? ==> (Eval(lhs, op, value) <==> op == Ne)
    ensures lhs.Some? && op == Eq ==> (Eval(lhs, op, value) <==> SameValue(lhs.value, value))
    ensures lhs.Some? && op == Ne ==> (Eval(lhs, op, value) <==> !SameValue(lhs.value, value))
    ensures lhs.Some? && op == In ==>
              (Eval(lhs, op, value) <==>
               value.Arr? && exists i :: 0 <= i < |value.items| && SameValue(lhs.value, value.items[i]))
    ensures lhs.Some? && op != Eq && op != Ne && op != In ==>
              (Eval(lhs, op, value) <==>
               Numeric(lhs.value) && Numeric(value) && Ordered(ValueOf(lhs.value), op, ValueOf(value)))
  {
    NumStrKeepsValue(value);
    if lhs.Some? {
      NumStrKeepsValue(lhs.value);
      ValuesEqMeaning(lhs.value, value);
      if Numeric(lhs.value) && Numeric(value) && op != In {
        EvalIsIntegerRelation(lhs.value, op, value);
      }
      if op == In && value.Arr? {
        InMeaning(lhs.value, value.items);
      }
    }
  }

  ghost predicate Ordered(x: int, op: Op, y: int) {
    match op
    case Gt => x > y
    case Gte => x >= y
    case Lt => x < y
    case Lte => x <= y
    case _ => false
  }

  /** Ordering predicates fail closed: nothing passes one without a present, numeric field and a numeric
      operand. */
  lemma OrderingFailsClosed(rec: Json, path: seq<string>, op: Op, value: Json)
    requires op == Gt || op == Gte || op == Lt || op == Lte
    requires forall v :: Leads(rec, path, v) ==> !Numeric(v) || !Numeric(value)
    ensures !Eval(ResolvePath(rec, path), op, value)
  {
    var lhs := ResolvePath(rec, path);
    if lhs.Some? {
      PathMeaning(rec, path, lhs.value);
    }
    EvalMeaning(lhs, op, value);
  }

  /** Going down the fields the path names, one object after the other, leads from `rec` to `v`. */
  ghost predicate LeadsBy(rec: Json, path: seq<string>, v: Json, vs: seq<Json>) {
    && |vs| == |path| + 1 && vs[0] == rec && vs[|path|] == v
    && forall i :: 0 <= i < |path| ==> vs[i].Obj? && path[i] in vs[i].fields && vs[i].fields[path[i]] == vs[i + 1]
  }

  ghost predicate Leads(rec: Json, path: seq<string>, v: Json) {
    exists vs :: LeadsBy(rec, path, v, vs)
  }

  /** A path resolves to a value iff every segment names a field of the object before it and the last leads
      to that value. */
  lemma {:induction false} PathMeaning(rec: Json, path: seq<string>, v: Json)
    ensures ResolvePath(rec, path) == Some(v) <==> Leads(rec, path, v)
    decreases |path|
  {
    if path == [] {
      if rec == v {
        assert LeadsBy(rec, path, v, [rec]);
      }
    } else {
      if ResolvePath(rec, path) == Some(v) {
        PathMeaning(rec.fields[path[0]], path[1..], v);
        var vs :| LeadsBy(rec.fields[path[0]], path[1..], v, vs);
        OneMoreSegment(rec, path, v, vs);
      }
      if vs: seq<Json> :| LeadsBy(rec, path, v, vs) {
        OneSegmentLess(rec, path, v, vs);
        PathMeaning(vs[1], path[1..], v);
      }
    }
  }

  lemma OneMoreSegment(rec: Json, path: seq<string>, v: Json, vs: seq<Json>)
    requires path != [] && rec.Obj? && path[0] in rec.fields && LeadsBy(rec.fields[path[0]], path[1..], v, vs)
    ensures Leads(rec, path, v)
  {
    assert forall i :: 0 < i < |path| ==> path[i] == path[1..][i - 1];
    assert LeadsBy(rec, path, v, [rec] + vs);
  }

  lemma OneSegmentLess(rec: Json, path: seq<string>, v: Json, vs: seq<Json>)
    requires path != [] && LeadsBy(rec, path, v, vs)
    ensures rec.Obj? && path[0] in rec.fields && rec.fields[path[0]] == vs[1] && Leads(vs[1], path[1..], v)
  {
    assert forall i :: 0 <= i < |path| - 1 ==> path[1..][i] == path[i + 1] && vs[1..][i] == vs[i + 1];
    assert LeadsBy(vs[1], path[1..], v, vs[1..]);
  }

  /** `gt`/`lte` and `lt`/`gte` are complements exactly when both operands are numeric:
      on anything else both fail closed. */
  lemma ComplementIffNumeric(lhs: Option<Json>, value: Json)
    ensures (Eval(lhs, Gt, value) == !Eval(lhs, Lte, value)) <==> (lhs.Some? && Numeric(lhs.value) && Numeric(value))
    ensures (Eval(lhs, Lt, value) == !Eval(lhs, Gte, value)) <==> (lhs.Some? && Numeric(lhs.value) && Numeric(value))
  {
    NumStrKeepsValue(value);
    if lhs.Some? {
      NumStrKeepsValue(lhs.value);
    }
  }

  /** `values_eq` on present values is an equivalence: numeric value on numeric operands, structure elsewhere. */
  lemma ValuesEqMeaning(a: Json, b: Json)
    ensures ValuesEq(Some(a), Some(b)) <==>
            if Numeric(a) && Numeric(b) then ValueOf(a) == ValueOf(b) else a == b
  {
    NumStrKeepsValue(a);
    NumStrKeepsValue(b);
    if Numeric(a) && Numeric(b) {
      CmpDecimalIsIntegerOrder(NumStr(a).value, NumStr(b).value);
    }
  }

  /** `in` holds exactly when some listed item is equal in that sense. */
  lemma InMeaning(lhs: Json, items: seq<Json>)
    ensures Eval(Some(lhs), In, Arr(items)) <==>
            exists i :: 0 <= i < |items| &&
              (if Numeric(lhs) && Numeric(items[i]) then ValueOf(lhs) == ValueOf(items[i]) else lhs == items[i])
  {
    forall i | 0 <= i < |items|
      ensures ValuesEq(Some(lhs), Some(items[i])) <==>
              if Numeric(lhs) && Numeric(items[i]) then ValueOf(lhs) == ValueOf(items[i]) else lhs == items[i]
    {
      ValuesEqMeaning(lhs, items[i]);
    }
  }
}
