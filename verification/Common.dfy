/** Types shared by every module of the model. */
module Common {

  datatype Option<+T> = None | Some(value: T)

  datatype Result<+T, +E> = Ok(value: T) | Err(error: E)

  /** `u64::saturating_sub`: subtraction that stops at zero. */
  function SaturatingSub(a: nat, b: nat): nat {
    if a >= b then a - b else 0
  }

  function Min(a: nat, b: nat): nat {
    if a <= b then a else b
  }

  function Max(a: nat, b: nat): nat {
    if a >= b then a else b
  }
}

/** Three-way comparison, and the lexicographic order Rust gives strings and vectors. */
module Lex {

  datatype Order = Less | Equal | Greater

  function Flip(o: Order): Order {
    match o
    case Less => Greater
    case Equal => Equal
    case Greater => Less
  }

  function CompareInts(a: int, b: int): Order {
    if a < b then Less else if a == b then Equal else Greater
  }

  function CompareChars(a: char, b: char): Order {
    CompareInts(a as int, b as int)
  }

  function Compare<T>(cmp: (T, T) -> Order, a: seq<T>, b: seq<T>): Order {
    if a == [] && b == [] then Equal
    else if a == [] then Less
    else if b == [] then Greater
    else match cmp(a[0], b[0])
      case Less => Less
      case Greater => Greater
      case Equal => Compare(cmp, a[1..], b[1..])
  }

  function CompareStrings(a: string, b: string): Order {
    Compare(CompareChars, a, b)
  }

  // ---- these are total orders ----

  /** Equal values and no others compare equal, flipping the operands flips the answer, and `Less` chains. */
  ghost predicate TotalOrder<T(!new)>(cmp: (T, T) -> Order) {
    && (forall a, b :: cmp(a, b) == Equal <==> a == b)
    && (forall a, b :: cmp(b, a) == Flip(cmp(a, b)))
    && (forall a, b, c :: cmp(a, b) == Less && cmp(b, c) == Less ==> cmp(a, c) == Less)
  }

  lemma {:induction false} CompareFlips<T(!new)>(cmp: (T, T) -> Order, a: seq<T>, b: seq<T>)
    requires TotalOrder(cmp)
    ensures Compare(cmp, b, a) == Flip(Compare(cmp, a, b))
    ensures Compare(cmp, a, b) == Equal <==> a == b
  {
    if a != [] && b != [] {
      assert cmp(b[0], a[0]) == Flip(cmp(a[0], b[0]));
      if a[0] == b[0] {
        CompareFlips(cmp, a[1..], b[1..]);
        assert a == [a[0]] + a[1..] && b == [b[0]] + b[1..];
      }
    }
  }

  lemma {:induction false} CompareChains<T(!new)>(cmp: (T, T) -> Order, a: seq<T>, b: seq<T>, c: seq<T>)
    requires TotalOrder(cmp) && Compare(cmp, a, b) == Less && Compare(cmp, b, c) == Less
    ensures Compare(cmp, a, c) == Less
  {
    if a != [] && b != [] && c != [] {
      assert a[0] == b[0] || cmp(a[0], b[0]) == Less;
      assert b[0] == c[0] || cmp(b[0], c[0]) == Less;
      if a[0] == b[0] == c[0] {
        CompareChains(cmp, a[1..], b[1..], c[1..]);
      }
    }
  }

  /** The lexicographic order over a total order is total. */
  lemma LexicographicIsTotal<T(!new)>(cmp: (T, T) -> Order)
    requires TotalOrder(cmp)
    ensures TotalOrder((a: seq<T>, b: seq<T>) => Compare(cmp, a, b))
  {
    var lex := (a: seq<T>, b: seq<T>) => Compare(cmp, a, b);
    forall a, b ensures (lex(a, b) == Equal <==> a == b) && lex(b, a) == Flip(lex(a, b)) {
      CompareFlips(cmp, a, b);
    }
    forall a, b, c | lex(a, b) == Less && lex(b, c) == Less ensures lex(a, c) == Less {
      CompareChains(cmp, a, b, c);
    }
  }

  /** At place `i` the lists first differ: there the left one ends or holds the smaller element. */
  ghost predicate LessAt<T(!new)>(cmp: (T, T) -> Order, a: seq<T>, b: seq<T>, i: nat) {
    && i <= |a| && i < |b| && a[..i] == b[..i]
    && (i == |a| || cmp(a[i], b[i]) == Less)
  }

  /** One list is less than another iff it is a proper prefix of it or smaller at the first difference. */
  lemma {:induction false} CompareMeaning<T(!new)>(cmp: (T, T) -> Order, a: seq<T>, b: seq<T>)
    requires TotalOrder(cmp)
    ensures Compare(cmp, a, b) == Less <==> exists i: nat :: LessAt(cmp, a, b, i)
  {
    if a == [] {
      if b != [] {
        assert LessAt(cmp, a, b, 0);
      }
    } else if b != [] {
      if cmp(a[0], b[0]) == Less {
        assert LessAt(cmp, a, b, 0);
      }
      assert cmp(a[0], b[0]) == Equal <==> a[0] == b[0];
      if a[0] == b[0] {
        CompareMeaning(cmp, a[1..], b[1..]);
        if i: nat :| LessAt(cmp, a[1..], b[1..], i) {
          assert a[..i + 1] == [a[0]] + a[1..][..i] && b[..i + 1] == [b[0]] + b[1..][..i];
          assert LessAt(cmp, a, b, i + 1);
        }
      }
      if i: nat :| LessAt(cmp, a, b, i) {
        if i > 0 {
          assert a[..i][0] == b[..i][0];
          assert a[1..][..i - 1] == a[..i][1..] && b[1..][..i - 1] == b[..i][1..];
          assert LessAt(cmp, a[1..], b[1..], i - 1);
        }
      }
    }
  }

  lemma StringsAreOrdered()
    ensures TotalOrder(CompareStrings)
  {
    var lex := (a: string, b: string) => Compare(CompareChars, a, b);
    LexicographicIsTotal(CompareChars);
    forall a, b ensures CompareStrings(a, b) == lex(a, b) {
    }
  }
}
