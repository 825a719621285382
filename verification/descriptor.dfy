/**
 * The descriptor value model and the missing-value channel of
 * mordred/_base/descriptor.py.
 *
 * A descriptor is the pair (class, parameters()). Python derives `==`, `!=`,
 * `<`, `<=`, `>`, `>=` by comparing the tuples `(cls, params)`; this module
 * spells out CPython's tuple comparison over that pair: scan for the first
 * position whose items are not `==`, then either answer `==`/`!=` directly or
 * apply the operator to that pair of items (or to the lengths when one tuple
 * is a prefix of the other). Classes are unorderable, functions are
 * unorderable, and a descriptor compared with a non-descriptor fails in
 * `other.parameters()`.
 *
 * Exceptions are values: a computation yields an Outcome that is a value, a
 * missing value (a raised `MissingValueException` carrying its error), or some
 * other raised exception.
 */
module Descriptors {
  import opened Numeric

  // ---------------------------------------------------------------------
  // Exceptions and the missing-value channel
  // ---------------------------------------------------------------------

  /** The Python exception classes the core raises or catches. */
  datatype ExcClass =
    | BaseException | Exception
    | ArithmeticError | ZeroDivisionError | FloatingPointError
    | LookupError | IndexError | KeyError
    | ValueError | TypeError | AttributeError | RuntimeError
    | MissingValueException

  /** Python's class hierarchy; BaseException is the root and its own parent. */
  function Parent(c: ExcClass): ExcClass
  {
    match c
    case BaseException => BaseException
    case Exception => BaseException
    case ZeroDivisionError => ArithmeticError
    case FloatingPointError => ArithmeticError
    case IndexError => LookupError
    case KeyError => LookupError
    case _ => Exception
  }

  function Depth(c: ExcClass): nat
  {
    match c
    case BaseException => 0
    case Exception => 1
    case ArithmeticError => 2
    case LookupError => 2
    case ZeroDivisionError => 3
    case FloatingPointError => 3
    case IndexError => 3
    case KeyError => 3
    case _ => 2
  }

  /** `issubclass(c, d)` */
  predicate IsSubclass(c: ExcClass, d: ExcClass)
    decreases Depth(c)
  {
    c == d || (c != BaseException && IsSubclass(Parent(c), d))
  }

  /** An exception instance: a class with its `args`, or a `MissingValueException(error)`. */
  datatype Exc = Error(cls: ExcClass, args: seq<string>) | MissingValue(error: Exc)

  function ClassOf(e: Exc): ExcClass
  {
    if e.MissingValue? then MissingValueException else e.cls
  }

  /**
   * What a computation can end in. `Missing(e)` is a raised
   * `MissingValueException(e)`; `Raised(x)` is any other exception.
   */
  datatype Outcome<+T> = Value(value: T) | Missing(error: Exc) | Raised(exc: Exc)

  /** `Descriptor.fail(e)`: it never returns normally, it signals a missing value carrying `e`. */
  function Fail<T>(e: Exc): (r: Outcome<T>)
    ensures !r.Value? && !r.Raised?
    ensures r.error == e
  {
    Missing(e)
  }

  /**
   * `MissingValueException` is an ordinary Exception: a handler for
   * Exception (or BaseException) catches it, an arithmetic or lookup handler
   * does not.
   */
  lemma MissingValueExceptionClass(e: Exc)
    ensures ClassOf(MissingValue(e)) == MissingValueException
    ensures IsSubclass(MissingValueException, Exception) && IsSubclass(MissingValueException, BaseException)
    ensures !IsZeroDivLike(MissingValue(e))
    ensures !IsSubclass(MissingValueException, LookupError) && !IsSubclass(MissingValueException, ArithmeticError)
  {
  }

  /** Whether `except (FloatingPointError, ZeroDivisionError)` catches `x`. */
  predicate IsZeroDivLike(x: Exc)
  {
    IsSubclass(ClassOf(x), FloatingPointError) || IsSubclass(ClassOf(x), ZeroDivisionError)
  }

  /**
   * The outcome of a block run under `with self.rethrow_zerodiv():`. Floating
   * point traps and zero divisions become a missing value carrying a
   * ZeroDivisionError with the same args; everything else passes through.
   */
  function RethrowZeroDiv<T>(body: Outcome<T>): (r: Outcome<T>)
    ensures body.Value? ==> r == body
    ensures body.Missing? ==> r == body
    ensures body.Raised? && IsZeroDivLike(body.exc) ==>
              r == Fail(Error(ZeroDivisionError, body.exc.args))
    ensures body.Raised? && !IsZeroDivLike(body.exc) ==> r == body
    ensures r.Raised? ==> !IsZeroDivLike(r.exc)
  {
    match body
    case Raised(x) =>
      if IsZeroDivLike(x) then
        assert x.Error?;
        Fail(Error(ZeroDivisionError, x.args))
      else body
    case _ => body
  }

  /**
   * The outcome of a block run under `with self.rethrow_na(cls):`. Any
   * exception that is an instance of `cls` is turned into a missing value
   * carrying that exception, a `MissingValueException` included.
   */
  function RethrowNa<T>(cls: ExcClass, body: Outcome<T>): (r: Outcome<T>)
    ensures body.Value? ==> r == body
    ensures body.Raised? ==>
              r == if IsSubclass(ClassOf(body.exc), cls) then Fail(body.exc) else body
    ensures body.Missing? ==>
              r == if IsSubclass(MissingValueException, cls) then Fail(MissingValue(body.error)) else body
    ensures r.Raised? ==> body == r && !IsSubclass(ClassOf(r.exc), cls)
  {
    match body
    case Value(_) => body
    case Raised(x) => if IsSubclass(ClassOf(x), cls) then Fail(x) else body
    case Missing(e) => if IsSubclass(MissingValueException, cls) then Fail(MissingValue(e)) else body
  }

  lemma RethrowZeroDivIdempotent<T>(body: Outcome<T>)
    ensures RethrowZeroDiv(RethrowZeroDiv(body)) == RethrowZeroDiv(body)
  {
  }

  /** A missing value leaving `rethrow_zerodiv` either came in as one or carries a ZeroDivisionError. */
  lemma RethrowZeroDivMissingReason<T>(body: Outcome<T>)
    ensures RethrowZeroDiv(body).Missing? ==>
              body.Missing? || ClassOf(RethrowZeroDiv(body).error) == ZeroDivisionError
  {
  }

  /** `rethrow_na(E)` lets through exactly the raised exceptions that are not instances of E. */
  lemma RethrowNaLetsOthersThrough<T>(cls: ExcClass, body: Outcome<T>)
    requires body.Raised? && body.exc.Error?
    ensures RethrowNa(cls, body).Raised? <==> !IsSubclass(body.exc.cls, cls)
  {
  }

  // ---------------------------------------------------------------------
  // Descriptor identity
  // ---------------------------------------------------------------------

  /** The concrete classes of the spectral family (mordred/_matrix_attributes.py). */
  datatype SpectralClass =
    | Eigen | SpAbs | SpMax | SpDiam | SpMean | SpAD | SpMAD
    | LogEE | SM1 | VE1 | VE2 | VE3 | VR1 | VR2 | VR3

  /**
   * A descriptor class. `Other(name)` stands for any class outside the two
   * modelled families (the matrix descriptors a spectral index is built on).
   */
  datatype Kind =
    | Spectral(cls: SpectralClass)
    | Burden | BurdenEigenValues | BCUT
    | Other(name: string)

  /** An atomic property function; two properties are the same function when they agree here. */
  datatype Property = Property(symbol: string, gasteigerCharges: bool)

  /**
   * A parameter value: an integer (Python booleans are the integers 0 and 1,
   * and compare and hash as such), a property function, or a nested descriptor.
   */
  datatype Param = Int(i: int) | Prop(p: Property) | Sub(d: Desc)

  datatype Desc = Desc(kind: Kind, params: seq<Param>)

  /** One entry of a `dependencies()` dict: a descriptor to resolve first, a raw value, or None. */
  datatype Dep = On(d: Desc) | Raw(p: Param) | Absent

  /** The flags a descriptor class declares for preparing the molecule. */
  datatype Flags = Flags(explicitHydrogens: bool, kekulize: bool, requireConnected: bool, require3D: bool)

  /** The class attributes of the Descriptor base class. */
  const DefaultFlags := Flags(true, false, false, false)

  /** `Param` for a Python boolean. */
  function Bool(b: bool): Param
  {
    Int(if b then 1 else 0)
  }

  /** Python truthiness of a parameter: only the integer 0 (and False) is falsy. */
  predicate Truthy(p: Param)
  {
    !(p.Int? && p.i == 0)
  }

  /** `__reduce_ex__`: the class and the parameter tuple. */
  function Reduce(d: Desc): (Kind, seq<Param>)
  {
    (d.kind, d.params)
  }

  /** Unpickling: call the class with the reduced parameters. */
  function Rebuild(r: (Kind, seq<Param>)): Desc
  {
    Desc(r.0, r.1)
  }

  /** `__hash__`: `hash((cls, params))`, for a given tuple hash `h`. */
  function Hash(h: ((Kind, seq<Param>)) -> int, d: Desc): int
  {
    h(Reduce(d))
  }

  // ---------------------------------------------------------------------
  // Rich comparison
  // ---------------------------------------------------------------------

  datatype Op = EQ | NE | LT | LE | GT | GE

  /** The operator with its operands swapped (`a < b` is `b > a`). */
  function Flip(op: Op): Op
  {
    match op
    case EQ => EQ
    case NE => NE
    case LT => GT
    case LE => GE
    case GT => LT
    case GE => LE
  }

  function CmpInt(op: Op, x: int, y: int): bool
  {
    match op
    case EQ => x == y
    case NE => x != y
    case LT => x < y
    case LE => x <= y
    case GT => x > y
    case GE => x >= y
  }

  const TypeErr := Error(TypeError, [])
  const AttrErr := Error(AttributeError, [])

  /**
   * The answer once the first pair of unequal items is found: `==` is false,
   * `!=` is true, any ordering is the items' own ordering.
   */
  function AtDifference(op: Op, ordered: Outcome<bool>): Outcome<bool>
  {
    if op == EQ then Value(false) else if op == NE then Value(true) else ordered
  }

  /**
   * `op` on the parameter tuples of `a` and `b` from position `i` on, with
   * CPython's tuple comparison. The items at position `i` are first tested
   * with `==`; nested descriptors are compared by the same rule.
   */
  function CompareFrom(op: Op, a: Desc, b: Desc, i: nat): Outcome<bool>
    decreases a, |a.params| - i
  {
    if i >= |a.params| || i >= |b.params| then Value(CmpInt(op, |a.params|, |b.params|))
    else
      match (a.params[i], b.params[i])
      case (Int(x), Int(y)) =>
        if x == y then CompareFrom(op, a, b, i + 1)
        else AtDifference(op, Value(CmpInt(op, x, y)))
      case (Prop(x), Prop(y)) =>
        if x == y then CompareFrom(op, a, b, i + 1)
        else AtDifference(op, Raised(TypeErr))
      case (Sub(d), Sub(e)) =>
        if d.kind != e.kind then AtDifference(op, Raised(TypeErr))
        else (
          match CompareFrom(EQ, d, e, 0)
          case Value(true) => CompareFrom(op, a, b, i + 1)
          case Value(false) => AtDifference(op, CompareFrom(op, d, e, 0))
          case failed => failed)
      case (Sub(_), _) => Raised(AttrErr)
      case (_, Sub(_)) => Raised(AttrErr)
      case _ => AtDifference(op, Raised(TypeErr))
  }

  /** `a op b` for two descriptors: `op` on `(a.__class__, a.parameters())` and `(b.__class__, b.parameters())`. */
  function Compare(op: Op, a: Desc, b: Desc): Outcome<bool>
  {
    if a.kind != b.kind then AtDifference(op, Raised(TypeErr))
    else CompareFrom(op, a, b, 0)
  }

  function Negate(o: Outcome<bool>): Outcome<bool>
  {
    if o.Value? then Value(!o.value) else o
  }

  /** Whether the scan moves past the pair (p, q): they are `==` without raising. */
  predicate ItemsEqual(p: Param, q: Param)
  {
    match (p, q)
    case (Int(x), Int(y)) => x == y
    case (Prop(x), Prop(y)) => x == y
    case (Sub(d), Sub(e)) => d.kind == e.kind && CompareFrom(EQ, d, e, 0) == Value(true)
    case _ => false
  }

  /** A descriptor compares to itself as its tuple length does to itself, for every operator. */
  lemma {:induction false} CompareFromReflexive(op: Op, a: Desc, i: nat)
    ensures CompareFrom(op, a, a, i) == Value(CmpInt(op, |a.params|, |a.params|))
    decreases a, |a.params| - i
  {
    if i < |a.params| {
      if a.params[i].Sub? {
        CompareFromReflexive(EQ, a.params[i].d, 0);
      }
      CompareFromReflexive(op, a, i + 1);
    }
  }

  /** When `==` on two tuples returns a value, it is structural equality of the remaining items. */
  lemma {:induction false} CompareFromEqDecides(a: Desc, b: Desc, i: nat)
    requires i <= |a.params| && i <= |b.params|
    requires CompareFrom(EQ, a, b, i).Value?
    ensures CompareFrom(EQ, a, b, i).value == (a.params[i..] == b.params[i..])
    decreases a, |a.params| - i
  {
    if i < |a.params| && i < |b.params| {
      assert a.params[i..] == [a.params[i]] + a.params[i + 1..];
      assert b.params[i..] == [b.params[i]] + b.params[i + 1..];
      match (a.params[i], b.params[i])
      case (Int(x), Int(y)) =>
        if x == y { CompareFromEqDecides(a, b, i + 1); }
      case (Prop(x), Prop(y)) =>
        if x == y { CompareFromEqDecides(a, b, i + 1); }
      case (Sub(d), Sub(e)) =>
        if d.kind == e.kind {
          CompareFromEqDecides(d, e, 0);
          assert d.params[0..] == d.params && e.params[0..] == e.params;
          if d.params == e.params {
            CompareFromEqDecides(a, b, i + 1);
          }
        }
      case (Sub(_), _) =>
      case (_, Sub(_)) =>
      case _ =>
    } else if i < |a.params| || i < |b.params| {
      assert |a.params[i..]| != |b.params[i..]|;
    }
  }

  /** `!=` is the negation of `==`, and fails exactly when `==` fails. */
  lemma {:induction false} CompareFromNeNegatesEq(a: Desc, b: Desc, i: nat)
    ensures CompareFrom(NE, a, b, i) == Negate(CompareFrom(EQ, a, b, i))
    decreases a, |a.params| - i
  {
    if i < |a.params| && i < |b.params| {
      CompareFromNeNegatesEq(a, b, i + 1);
    }
  }

  /** Swapping the operands swaps the operator (`a < b` is `b > a`, `a <= b` is `b >= a`). */
  lemma {:induction false} CompareFromFlip(op: Op, a: Desc, b: Desc, i: nat)
    ensures CompareFrom(Flip(op), b, a, i) == CompareFrom(op, a, b, i)
    decreases a, |a.params| - i
  {
    if i < |a.params| && i < |b.params| {
      match (a.params[i], b.params[i])
      case (Int(x), Int(y)) => CompareFromFlip(op, a, b, i + 1);
      case (Prop(x), Prop(y)) => CompareFromFlip(op, a, b, i + 1);
      case (Sub(d), Sub(e)) =>
        if d.kind == e.kind {
          CompareFromFlip(EQ, d, e, 0);
          CompareFromFlip(op, d, e, 0);
          CompareFromFlip(op, a, b, i + 1);
        }
      case (Sub(_), _) =>
      case (_, Sub(_)) =>
      case _ =>
    }
  }

  /** `<=` is `==` or `<`, failing exactly when those fail. */
  lemma {:induction false} CompareFromLeIsLtOrEq(a: Desc, b: Desc, i: nat)
    ensures CompareFrom(LE, a, b, i) ==
              if CompareFrom(EQ, a, b, i) == Value(true) then Value(true) else CompareFrom(LT, a, b, i)
    decreases a, |a.params| - i
  {
    if i < |a.params| && i < |b.params| {
      match (a.params[i], b.params[i])
      case (Int(x), Int(y)) => CompareFromLeIsLtOrEq(a, b, i + 1);
      case (Prop(x), Prop(y)) => CompareFromLeIsLtOrEq(a, b, i + 1);
      case (Sub(d), Sub(e)) =>
        if d.kind == e.kind {
          CompareFromLeIsLtOrEq(d, e, 0);
          CompareFromLeIsLtOrEq(a, b, i + 1);
        }
      case (Sub(_), _) =>
      case (_, Sub(_)) =>
      case _ =>
    }
  }

  /** Tuples that are `<` are not `==`. */
  lemma {:induction false} CompareFromLtNotEq(a: Desc, b: Desc, i: nat)
    requires CompareFrom(LT, a, b, i) == Value(true)
    ensures CompareFrom(EQ, a, b, i) == Value(false)
    decreases a, |a.params| - i
  {
    if i < |a.params| && i < |b.params| {
      if ItemsEqual(a.params[i], b.params[i]) {
        CompareFromLtNotEq(a, b, i + 1);
      }
    }
  }

  lemma ItemsEqualSound(p: Param, q: Param)
    ensures ItemsEqual(p, q) <==> p == q
  {
    if p.Sub? && q.Sub? {
      if ItemsEqual(p, q) {
        CompareFromEqDecides(p.d, q.d, 0);
        assert p.d.params[0..] == p.d.params && q.d.params[0..] == q.d.params;
      }
      if p == q {
        CompareFromReflexive(EQ, p.d, 0);
      }
    }
  }

  /** `<` on parameter tuples is transitive. */
  lemma {:induction false} CompareFromLtTransitive(a: Desc, b: Desc, c: Desc, i: nat)
    requires CompareFrom(LT, a, b, i) == Value(true)
    requires CompareFrom(LT, b, c, i) == Value(true)
    ensures CompareFrom(LT, a, c, i) == Value(true)
    decreases a, |a.params| - i
  {
    if i < |a.params| && i < |b.params| && i < |c.params| {
      var p, q, r := a.params[i], b.params[i], c.params[i];
      ItemsEqualSound(p, q);
      ItemsEqualSound(q, r);
      if ItemsEqual(p, q) && ItemsEqual(q, r) {
        CompareFromLtTransitive(a, b, c, i + 1);
      } else if !ItemsEqual(p, q) && !ItemsEqual(q, r) {
        match (p, q, r)
        case (Sub(d), Sub(e), Sub(f)) =>
          CompareFromLtTransitive(d, e, f, 0);
          CompareFromLtNotEq(d, f, 0);
        case _ =>
      }
    }
  }

  // ---------------------------------------------------------------------
  // The descriptor-level statements
  // ---------------------------------------------------------------------

  /** `a == b` holds, when it returns, exactly for equal (class, parameters()) pairs. */
  lemma EqIsIdentity(a: Desc, b: Desc)
    requires Compare(EQ, a, b).Value?
    ensures Compare(EQ, a, b).value == (Reduce(a) == Reduce(b))
  {
    if a.kind == b.kind {
      CompareFromEqDecides(a, b, 0);
      assert a.params[0..] == a.params && b.params[0..] == b.params;
    }
  }

  /** Every descriptor is `==` and `<=` to itself, and never `<` itself. */
  lemma CompareReflexive(a: Desc)
    ensures Compare(EQ, a, a) == Value(true)
    ensures Compare(LT, a, a) == Value(false)
    ensures Compare(LE, a, a) == Value(true)
  {
    CompareFromReflexive(EQ, a, 0);
    CompareFromReflexive(LT, a, 0);
    CompareFromReflexive(LE, a, 0);
  }

  lemma NeIsNotEq(a: Desc, b: Desc)
    ensures Compare(NE, a, b) == Negate(Compare(EQ, a, b))
  {
    if a.kind == b.kind {
      CompareFromNeNegatesEq(a, b, 0);
    }
  }

  /** `a > b` is `b < a` and `a >= b` is `b <= a`; descriptors of different classes are unordered. */
  lemma GtIsConverse(a: Desc, b: Desc)
    ensures Compare(GT, a, b) == Compare(LT, b, a)
    ensures Compare(GE, a, b) == Compare(LE, b, a)
    ensures a.kind != b.kind ==> Compare(LT, a, b) == Raised(TypeErr)
  {
    if a.kind == b.kind {
      CompareFromFlip(LT, b, a, 0);
      CompareFromFlip(LE, b, a, 0);
    }
  }

  lemma LeIsLtOrEq(a: Desc, b: Desc)
    ensures Compare(LE, a, b) ==
              if Compare(EQ, a, b) == Value(true) then Value(true) else Compare(LT, a, b)
  {
    if a.kind == b.kind {
      CompareFromLeIsLtOrEq(a, b, 0);
    }
  }

  /** `<` holds only between descriptors of one class, and there it is transitive. */
  lemma LtTransitive(a: Desc, b: Desc, c: Desc)
    requires Compare(LT, a, b) == Value(true)
    requires Compare(LT, b, c) == Value(true)
    ensures a.kind == b.kind == c.kind
    ensures Compare(LT, a, c) == Value(true)
  {
    CompareFromLtTransitive(a, b, c, 0);
  }

  /** Descriptors that are `==` hash alike, whatever tuple hash is used. */
  lemma EqualDescriptorsHashEqual(h: ((Kind, seq<Param>)) -> int, a: Desc, b: Desc)
    requires Compare(EQ, a, b) == Value(true)
    ensures Hash(h, a) == Hash(h, b)
  {
    EqIsIdentity(a, b);
  }

  /** Rebuilding a descriptor from `__reduce_ex__` gives a descriptor `==` to it. */
  lemma ReduceRoundTrip(d: Desc)
    ensures Rebuild(Reduce(d)) == d
    ensures Compare(EQ, Rebuild(Reduce(d)), d) == Value(true)
  {
    CompareReflexive(d);
  }

  // ---------------------------------------------------------------------
  // Coordinates
  // ---------------------------------------------------------------------

  /**
   * The `coord` property: a descriptor that does not declare `require_3D`
   * gets a missing value wrapping an AttributeError; otherwise the context's
   * answer is returned.
   */
  function Coord<C>(require3D: bool, fromContext: Outcome<C>): (r: Outcome<C>)
    ensures !require3D ==> r == Fail(Error(AttributeError, ["use 3D coordinate in 2D descriptor"]))
    ensures require3D ==> r == fromContext
  {
    if !require3D then Fail(Error(AttributeError, ["use 3D coordinate in 2D descriptor"]))
    else fromContext
  }

  /** A 2D descriptor's `coord` does not depend on the context at all. */
  lemma CoordIn2DIgnoresContext<C>(c1: Outcome<C>, c2: Outcome<C>)
    ensures Coord(false, c1) == Coord(false, c2)
    ensures Coord(false, c1).Missing? && ClassOf(Coord(false, c1).error) == AttributeError
  {
  }
}
