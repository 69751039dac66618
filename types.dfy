/** The closed type universe of the analyser and its algebra
    (popsi.analysis.Type and Type.TypeAlgebra). */
module Types {

  /** A type: a primitive or parametric name, a function signature or a record. */
  datatype Type =
    | Named(name: string, args: seq<Type>)
    | Function(params: seq<Type>, ret: Type, names: seq<string>)
    | Record(name: string, fields: seq<string>, types: seq<Type>)

  /** The sentinel and primitive types, all `Named` with no arguments. */
  const NUMERIC: Type := Named("{numeric}", [])
  const I_LITERAL: Type := Named("{integer}", [])
  const U8: Type := Named("u8", [])
  const U16: Type := Named("u16", [])
  const U32: Type := Named("u32", [])
  const U64: Type := Named("u64", [])
  const I8: Type := Named("i8", [])
  const I16: Type := Named("i16", [])
  const I32: Type := Named("i32", [])
  const I64: Type := Named("i64", [])
  const F_LITERAL: Type := Named("{float}", [])
  const F32: Type := Named("f32", [])
  const F64: Type := Named("f64", [])
  const STR: Type := Named("str", [])
  const CHAR: Type := Named("char", [])
  const ANY: Type := Named("any", [])
  const NOTHING: Type := Named("nothing", [])
  const INVALID: Type := Named("?", [])
  const UNIT: Type := Named("unit", [])
  const BOOLEAN: Type := Named("bool", [])

  /** The list type constructor `[]`, applied to one element type. */
  function ListOf(element: Type): (t: Type)
    ensures IsList(t) && t.args == [element]
  {
    Named("[]", [element])
  }

  /** The operands a `NUMERIC` placeholder narrows to. */
  const NumericFamily: set<Type> := {U8, U16, U32, U64, I8, I16, I32, I64, F32, F64, I_LITERAL, F_LITERAL}
  /** The operands an integer literal narrows to. */
  const IntegerFamily: set<Type> := {U8, U16, U32, U64, I8, I16, I32, I64}
  /** The operands a float literal narrows to. */
  const FloatFamily: set<Type> := {F32, F64}

  predicate IsList(t: Type) {
    t.Named? && t.name == "[]"
  }

  /** The algebra reads the element of a list type as `args.get(0)`: every list type on the
      chain of element types must carry one. */
  predicate WellFormed(t: Type) {
    IsList(t) ==> |t.args| >= 1 && WellFormed(t.args[0])
  }

  /** How deep the chain of list element types goes. */
  function ListDepth(t: Type): nat {
    if IsList(t) && |t.args| >= 1 then 1 + ListDepth(t.args[0]) else 0
  }

  /** The order in which the algebra tries the placeholders. */
  function Rank(t: Type): nat {
    if t == NUMERIC then 0 else if t == I_LITERAL then 1 else if t == F_LITERAL then 2 else 3
  }

  /** The element type of a list type. */
  function Element(t: Type): (e: Type)
    requires IsList(t) && WellFormed(t)
    ensures WellFormed(e) && ListDepth(e) < ListDepth(t)
  {
    t.args[0]
  }

  /** Least upper bound, exactly as the source's if-chain computes it: the b-side
      placeholder cases call back with the arguments swapped. */
  function Lub(a: Type, b: Type): (r: Type)
    requires WellFormed(a) && WellFormed(b)
    decreases ListDepth(a) + ListDepth(b), Rank(a)
  {
    if a == b then a
    else if a == ANY then b
    else if b == ANY then a
    else if a == NUMERIC then (if b in NumericFamily then b else ANY)
    else if b == NUMERIC then Lub(b, a)
    else if a == I_LITERAL then (if b in IntegerFamily then b else ANY)
    else if b == I_LITERAL then Lub(b, a)
    else if a == F_LITERAL then (if b in FloatFamily then b else ANY)
    else if b == F_LITERAL then Lub(b, a)
    else if IsList(a) && IsList(b) then ListOf(Lub(Element(a), Element(b)))
    else ANY
  }

  /** Greatest lower bound: the same chain as Lub with NOTHING as the fallback. */
  function Glb(a: Type, b: Type): (r: Type)
    requires WellFormed(a) && WellFormed(b)
    decreases ListDepth(a) + ListDepth(b), Rank(a)
  {
    if a == b then a
    else if a == ANY then b
    else if b == ANY then a
    else if a == NUMERIC then (if b in NumericFamily then b else NOTHING)
    else if b == NUMERIC then Glb(b, a)
    else if a == I_LITERAL then (if b in IntegerFamily then b else NOTHING)
    else if b == I_LITERAL then Glb(b, a)
    else if a == F_LITERAL then (if b in FloatFamily then b else NOTHING)
    else if b == F_LITERAL then Glb(b, a)
    else if IsList(a) && IsList(b) then ListOf(Glb(Element(a), Element(b)))
    else NOTHING
  }

  /** Is `s` the letter `c` followed by one or more decimal digits (Java `c\d+`)? */
  predicate LetterThenDigits(s: string, c: char) {
    |s| >= 2 && s[0] == c && forall i :: 1 <= i < |s| ==> '0' <= s[i] <= '9'
  }

  predicate IsIntegerType(t: Type) {
    t == I_LITERAL || (t.Named? && (LetterThenDigits(t.name, 'i') || LetterThenDigits(t.name, 'u')))
  }

  predicate IsFloatType(t: Type) {
    t.Named? && LetterThenDigits(t.name, 'f')
  }

  predicate IsNumericType(t: Type) {
    IsIntegerType(t) || IsFloatType(t)
  }

  /** compatibleTypes as written. Java's `&&` binds tighter than `||`, so the fourth test is
      (t1 = NUMERIC and (numeric t2 or t1 = I_LITERAL or t2 = F_LITERAL)) or
      (t2 = NUMERIC and numeric t1) or t1 = I_LITERAL or t2 = F_LITERAL. */
  predicate Compatible(t1: Type, t2: Type)
    requires WellFormed(t1) && WellFormed(t2)
    decreases ListDepth(t1)
  {
    if t1 == t2 then true
    else if t1 == ANY || t2 == ANY then true
    else if t1 == NOTHING || t2 == NOTHING then false
    else if (t1 == NUMERIC && (IsNumericType(t2) || t1 == I_LITERAL || t2 == F_LITERAL))
            || (t2 == NUMERIC && IsNumericType(t1)) || t1 == I_LITERAL || t2 == F_LITERAL then true
    else if (t1 == I_LITERAL && IsIntegerType(t2)) || (t2 == I_LITERAL && IsIntegerType(t1)) then true
    else if (t1 == F_LITERAL && IsFloatType(t2)) || (t2 == F_LITERAL && IsFloatType(t1)) then true
    else if t1.Named? && t2.Named? && t1.name == "[]" && t2.name == "[]" then
      Compatible(Element(t1), Element(t2))
    else false
  }

  // ---------------------------------------------------------------------------
  // A symmetric reference definition of both bounds

  /** The bound both Lub and Glb compute, stated without the argument swap: the
      placeholder that comes first in the chain is looked for on either side. `fallback`
      is what an unrelated pair gives (ANY for Lub, NOTHING for Glb). */
  function Bound(a: Type, b: Type, fallback: Type): (r: Type)
    requires WellFormed(a) && WellFormed(b)
    decreases ListDepth(a) + ListDepth(b)
  {
    if a == b then a
    else if a == ANY then b
    else if b == ANY then a
    else if a == NUMERIC || b == NUMERIC then
      var other := if a == NUMERIC then b else a;
      if other in NumericFamily then other else fallback
    else if a == I_LITERAL || b == I_LITERAL then
      var other := if a == I_LITERAL then b else a;
      if other in IntegerFamily then other else fallback
    else if a == F_LITERAL || b == F_LITERAL then
      var other := if a == F_LITERAL then b else a;
      if other in FloatFamily then other else fallback
    else if IsList(a) && IsList(b) then ListOf(Bound(Element(a), Element(b), fallback))
    else fallback
  }

  /** Lub is the symmetric bound with ANY as fallback. */
  lemma {:induction false} LubIsBound(a: Type, b: Type)
    requires WellFormed(a) && WellFormed(b)
    ensures Lub(a, b) == Bound(a, b, ANY)
    decreases ListDepth(a) + ListDepth(b), Rank(a)
  {
    if a == b || a == ANY || b == ANY || a == NUMERIC {
    } else if b == NUMERIC || b == I_LITERAL || b == F_LITERAL {
      if a != I_LITERAL && a != F_LITERAL {
        LubIsBound(b, a);
      } else if a == F_LITERAL && b == I_LITERAL {
        LubIsBound(b, a);
      }
    } else if a == I_LITERAL || a == F_LITERAL {
    } else if IsList(a) && IsList(b) {
      LubIsBound(Element(a), Element(b));
    }
  }

  /** Glb is the symmetric bound with NOTHING as fallback. */
  lemma {:induction false} GlbIsBound(a: Type, b: Type)
    requires WellFormed(a) && WellFormed(b)
    ensures Glb(a, b) == Bound(a, b, NOTHING)
    decreases ListDepth(a) + ListDepth(b), Rank(a)
  {
    if a == b || a == ANY || b == ANY || a == NUMERIC {
    } else if b == NUMERIC || b == I_LITERAL || b == F_LITERAL {
      if a != I_LITERAL && a != F_LITERAL {
        GlbIsBound(b, a);
      } else if a == F_LITERAL && b == I_LITERAL {
        GlbIsBound(b, a);
      }
    } else if a == I_LITERAL || a == F_LITERAL {
    } else if IsList(a) && IsList(b) {
      GlbIsBound(Element(a), Element(b));
    }
  }

  lemma {:induction false} BoundCommutative(a: Type, b: Type, fallback: Type)
    requires WellFormed(a) && WellFormed(b)
    ensures Bound(a, b, fallback) == Bound(b, a, fallback)
    decreases ListDepth(a) + ListDepth(b)
  {
    if a != b && a != ANY && b != ANY && a != NUMERIC && b != NUMERIC && a != I_LITERAL
      && b != I_LITERAL && a != F_LITERAL && b != F_LITERAL && IsList(a) && IsList(b)
    {
      BoundCommutative(Element(a), Element(b), fallback);
    }
  }

  // ---------------------------------------------------------------------------
  // Properties of the bounds

  lemma LubCommutative(a: Type, b: Type)
    requires WellFormed(a) && WellFormed(b)
    ensures Lub(a, b) == Lub(b, a)
  {
    LubIsBound(a, b);
    LubIsBound(b, a);
    BoundCommutative(a, b, ANY);
  }

  lemma GlbCommutative(a: Type, b: Type)
    requires WellFormed(a) && WellFormed(b)
    ensures Glb(a, b) == Glb(b, a)
  {
    GlbIsBound(a, b);
    GlbIsBound(b, a);
    BoundCommutative(a, b, NOTHING);
  }

  lemma BoundsIdempotent(a: Type)
    requires WellFormed(a)
    ensures Lub(a, a) == a && Glb(a, a) == a
  {
  }

  /** ANY is an identity on both sides of both bounds. */
  lemma AnyIsIdentity(t: Type)
    requires WellFormed(t)
    ensures Lub(ANY, t) == t && Lub(t, ANY) == t
    ensures Glb(ANY, t) == t && Glb(t, ANY) == t
  {
  }

  /** A placeholder narrows to an operand of its family; any other operand (that is not ANY,
      the placeholder itself or a placeholder tried earlier) gives ANY for Lub and NOTHING
      for Glb, on either side. */
  lemma PlaceholderNarrowing(p: Type, t: Type)
    requires WellFormed(t)
    requires p in {NUMERIC, I_LITERAL, F_LITERAL}
    requires t != ANY && t != p && Rank(t) > Rank(p)
    ensures var family := if p == NUMERIC then NumericFamily else if p == I_LITERAL then IntegerFamily else FloatFamily;
      && Lub(p, t) == Lub(t, p) == (if t in family then t else ANY)
      && Glb(p, t) == Glb(t, p) == (if t in family then t else NOTHING)
  {
    LubCommutative(p, t);
    GlbCommutative(p, t);
  }

  /** Two distinct list types bound element-wise. */
  lemma ListBounds(a: Type, b: Type)
    requires WellFormed(a) && WellFormed(b) && IsList(a) && IsList(b) && a != b
    ensures Lub(a, b) == ListOf(Lub(Element(a), Element(b)))
    ensures Glb(a, b) == ListOf(Glb(Element(a), Element(b)))
  {
  }

  /** Any other pair of distinct types falls through to ANY / NOTHING. */
  lemma UnrelatedBounds(a: Type, b: Type)
    requires WellFormed(a) && WellFormed(b) && a != b
    requires a !in {ANY, NUMERIC, I_LITERAL, F_LITERAL} && b !in {ANY, NUMERIC, I_LITERAL, F_LITERAL}
    requires !(IsList(a) && IsList(b))
    ensures Lub(a, b) == ANY && Glb(a, b) == NOTHING
  {
  }

  /** The bounds of well-formed types are well-formed. */
  lemma {:induction false} BoundsWellFormed(a: Type, b: Type)
    requires WellFormed(a) && WellFormed(b)
    ensures WellFormed(Lub(a, b)) && WellFormed(Glb(a, b))
    decreases ListDepth(a) + ListDepth(b)
  {
    LubIsBound(a, b);
    GlbIsBound(a, b);
    BoundWellFormed(a, b, ANY);
    BoundWellFormed(a, b, NOTHING);
  }

  lemma {:induction false} BoundWellFormed(a: Type, b: Type, fallback: Type)
    requires WellFormed(a) && WellFormed(b) && WellFormed(fallback)
    ensures WellFormed(Bound(a, b, fallback))
    decreases ListDepth(a) + ListDepth(b)
  {
    if a != b && a != ANY && b != ANY && a != NUMERIC && b != NUMERIC && a != I_LITERAL
      && b != I_LITERAL && a != F_LITERAL && b != F_LITERAL && IsList(a) && IsList(b)
    {
      BoundWellFormed(Element(a), Element(b), fallback);
    }
  }

  lemma GlbExamples()
    ensures Glb(I_LITERAL, U8) == U8
    ensures Glb(I_LITERAL, STR) == NOTHING
    ensures Glb(I_LITERAL, F_LITERAL) == NOTHING
    ensures Lub(I_LITERAL, F_LITERAL) == ANY
    ensures Glb(ListOf(I_LITERAL), ListOf(I32)) == ListOf(I32)
  {
  }

  // ---------------------------------------------------------------------------
  // Properties of compatibility

  lemma CompatibleReflexive(t: Type)
    requires WellFormed(t)
    ensures Compatible(t, t)
  {
  }

  /** ANY is compatible with everything, NOTHING included, on either side. */
  lemma AnyCompatible(t: Type)
    requires WellFormed(t)
    ensures Compatible(ANY, t) && Compatible(t, ANY)
  {
  }

  /** NOTHING is compatible only with itself and with ANY. */
  lemma NothingCompatible(t: Type)
    requires WellFormed(t)
    ensures Compatible(NOTHING, t) <==> t == NOTHING || t == ANY
    ensures Compatible(t, NOTHING) <==> t == NOTHING || t == ANY
  {
  }

  /** The `|| type1 = I_LITERAL || type2 = F_LITERAL` disjuncts: an integer literal on the
      left, or a float literal on the right, is compatible with every type but NOTHING. */
  lemma LiteralDisjuncts(t: Type)
    requires WellFormed(t) && t != NOTHING
    ensures Compatible(I_LITERAL, t)
    ensures Compatible(t, F_LITERAL)
  {
  }

  /** The relation as written is not symmetric. */
  lemma CompatibleIsNotSymmetric()
    ensures Compatible(I32, F_LITERAL) && !Compatible(F_LITERAL, I32)
    ensures Compatible(I_LITERAL, STR) && !Compatible(STR, I_LITERAL)
    ensures Compatible(F_LITERAL, F32)
  {
    assert !IsIntegerType(STR) by { assert !LetterThenDigits("str", 'u'); }
    assert !IsFloatType(I32);
  }

  /** The same relation with its dead disjuncts removed: the NUMERIC-on-the-left test
      reduces to a numeric right operand, and the later I_LITERAL-left and F_LITERAL-right
      tests are already covered. */
  lemma CompatibleSimplified(t1: Type, t2: Type)
    requires WellFormed(t1) && WellFormed(t2)
    ensures Compatible(t1, t2) <==>
      || t1 == t2 || t1 == ANY || t2 == ANY
      || (t1 != NOTHING && t2 != NOTHING &&
          ( || t1 == I_LITERAL || t2 == F_LITERAL
            || (t1 == NUMERIC && IsNumericType(t2)) || (t2 == NUMERIC && IsNumericType(t1))
            || (t2 == I_LITERAL && IsIntegerType(t1)) || (t1 == F_LITERAL && IsFloatType(t2))
            || (IsList(t1) && IsList(t2) && Compatible(Element(t1), Element(t2)))))
  {
  }

  /** List compatibility is element compatibility. */
  lemma ListCompatible(t1: Type, t2: Type)
    requires WellFormed(t1) && WellFormed(t2) && IsList(t1) && IsList(t2)
    ensures Compatible(t1, t2) == Compatible(Element(t1), Element(t2))
  {
    if t1 == t2 {
      CompatibleReflexive(Element(t1));
    }
  }

  /** A record is compatible only with itself, ANY and (through the F_LITERAL disjunct)
      the float literal. */
  lemma RecordCompatible(r: Type, t: Type)
    requires r.Record? && WellFormed(t)
    ensures Compatible(r, t) <==> t == r || t == ANY || t == F_LITERAL
  {
  }

  /** Two records are compatible iff they are equal. */
  lemma RecordsCompatibleIffEqual(r1: Type, r2: Type)
    requires r1.Record? && r2.Record?
    ensures Compatible(r1, r2) <==> r1 == r2
  {
    RecordCompatible(r1, r2);
  }

  // ---------------------------------------------------------------------------
  // Properties of the classifying predicates

  lemma ClassifierExamples()
    ensures IsIntegerType(I_LITERAL) && !IsFloatType(F_LITERAL) && !IsNumericType(F_LITERAL)
    ensures forall t :: t in IntegerFamily ==> IsIntegerType(t) && !IsFloatType(t)
    ensures forall t :: t in FloatFamily ==> IsFloatType(t) && !IsIntegerType(t)
    ensures !IsNumericType(NUMERIC) && !IsNumericType(STR) && !IsNumericType(BOOLEAN)
  {
    assert !LetterThenDigits("{float}", 'f');
    assert !LetterThenDigits("str", 'i') && !LetterThenDigits("str", 'u');
  }

  /** No type is both an integer and a float type. */
  lemma IntegerAndFloatDisjoint(t: Type)
    ensures !(IsIntegerType(t) && IsFloatType(t))
  {
  }
}
