/** `CommonBean.equals`, `hashCode` and `compareTo`: all three walk the key fields of the
    receiver's class in ascending order. A property that cannot be read on either side is
    logged and skipped, never fatal. */
module BeanIdentity {
  import opened Wrappers
  import opened JavaLang
  import opened BeanValues
  import opened BeanMetadata

  /** Both sides can read property `n` and read the same value. */
  predicate AgreeOn(a: Bean, b: Bean, n: string)
  {
    n in a.props && n in b.props && a.props[n] == b.props[n]
  }

  // ---------------------------------------------------------------------------------------
  // equals

  /** The loop of `equals`: a field whose values differ (null against non-null, or unequal
      non-null values) answers false at once; a field that cannot be read on either side is
      skipped. */
  function KeysEqual(keys: seq<FieldDecl>, a: Bean, b: Bean): (r: bool)
    ensures r <==> forall f :: f in keys && f.name in a.props && f.name in b.props ==> a.props[f.name] == b.props[f.name]
    decreases |keys|
  {
    if keys == [] then true
    else
      var n := keys[0].name;
      if n !in a.props || n !in b.props then KeysEqual(keys[1..], a, b)
      else if a.props[n] == Null then
        if b.props[n] != Null then false else KeysEqual(keys[1..], a, b)
      else if b.props[n] == Null || a.props[n] != b.props[n] then false
      else KeysEqual(keys[1..], a, b)
  }

  /** `a.equals(other)`: false for null, otherwise true unless some key field readable on both
      sides holds different values. */
  function Equals(a: Bean, other: Option<Bean>): (r: bool)
    ensures r <==> other.Some? &&
                   forall f :: f in Metadata(a).keyFields && f.name in a.props && f.name in other.value.props ==>
                                 a.props[f.name] == other.value.props[f.name]
  {
    other.Some? && KeysEqual(Metadata(a).keyFields, a, other.value)
  }

  /** `equals`, fetching the key list through the metadata cache. */
  method EqualsCheck(registry: Registry, a: Bean, other: Option<Bean>) returns (r: bool)
    requires registry.Valid() && registry.Knows(a.cls)
    modifies registry
    ensures registry.Valid() && registry.Knows(a.cls)
    ensures a.cls.name in old(registry.entries) ==> registry.entries == old(registry.entries)
    ensures r == Equals(a, other)
  {
    if other.None? {
      return false;
    }
    var fields := registry.GetAnnotatedFields(a.cls);
    r := EqualsLoop(fields.keyFields, a, other.value);
  }

  /** The loop of `equals` over a key list. */
  method EqualsLoop(keys: seq<FieldDecl>, a: Bean, b: Bean) returns (r: bool)
    ensures r == KeysEqual(keys, a, b)
  {
    var i := 0;
    while i < |keys|
      invariant 0 <= i <= |keys|
      invariant KeysEqual(keys[i..], a, b) == KeysEqual(keys, a, b)
    {
      var name := keys[i].name;
      assert keys[i..][1..] == keys[i + 1..];
      if name in a.props && name in b.props {
        var thisValue, objValue := a.props[name], b.props[name];
        if thisValue == Null {
          if objValue != Null {
            return false;
          }
        } else if objValue == Null || thisValue != objValue {
          return false;
        }
      }
      i := i + 1;
    }
    return true;
  }

  /** For two beans of one class, `equals` is reflexive and symmetric. */
  lemma EqualsReflexiveSymmetric(a: Bean, b: Bean)
    requires a.cls == b.cls
    ensures Equals(a, Some(a))
    ensures Equals(a, Some(b)) == Equals(b, Some(a))
  {
  }

  /** `equals` never looks at a property outside the key list. */
  lemma EqualsReadsOnlyKeys(a: Bean, b: Bean, a': Bean, b': Bean)
    requires a'.cls == a.cls
    requires forall f :: f in Metadata(a).keyFields ==>
      (f.name in a.props <==> f.name in a'.props) && (f.name in b.props <==> f.name in b'.props)
    requires forall f :: f in Metadata(a).keyFields && f.name in a.props ==> a'.props[f.name] == a.props[f.name]
    requires forall f :: f in Metadata(a).keyFields && f.name in b.props ==> b'.props[f.name] == b.props[f.name]
    ensures Equals(a', Some(b')) == Equals(a, Some(b))
  {
  }

  // ---------------------------------------------------------------------------------------
  // hashCode

  /** What one key value adds to `hashCode`, or `None` when computing it throws and the field
      is skipped: a null value (its `hashCode()` dereferences null) and a `Double` (cast to
      `Float`, a `ClassCastException`). `Boolean` counts 0 for true and 1 for false; integral
      boxes count their value; `Long` is folded to 32 bits; `Float` counts its bit pattern;
      anything else counts its own `hashCode()`. */
  function FieldHash(v: Value): Option<Int32>
  {
    match v
    case Null => None
    case Bool(b) => Some(if b then 0 else 1)
    case Byte(x) => Some(x)
    case Short(x) => Some(x)
    case Int(x) => Some(x)
    case Long(x) => Some(LongHash(x))
    case Float(bits) => Some(bits)
    case Double(_) => None
    case _ => Some(JavaHashCode(v))
  }

  /** The contribution of key field `f` of bean `a`, if any. */
  function Contribution(a: Bean, f: FieldDecl): Option<Int32>
  {
    if f.name in a.props then FieldHash(a.props[f.name]) else None
  }

  /** The accumulator of `hashCode` after the fields `keys`: `h = 37 * h + fieldHash` in `int`
      arithmetic, from 0, with no step at all for a field that is skipped. */
  function KeyHash(keys: seq<FieldDecl>, a: Bean): Int32
    decreases |keys|
  {
    if keys == [] then 0
    else
      var h := KeyHash(keys[..|keys| - 1], a);
      match Contribution(a, keys[|keys| - 1])
      case Some(c) => Wrap32(37 * h + c)
      case None => h
  }

  /** `a.hashCode()`. */
  function Hash(a: Bean): Int32
  {
    KeyHash(Metadata(a).keyFields, a)
  }

  /** The loop of `hashCode` over a key list. */
  method HashKeys(keys: seq<FieldDecl>, a: Bean) returns (hashCode: Int32)
    ensures hashCode == KeyHash(keys, a)
  {
    hashCode := 0;
    var i := 0;
    while i < |keys|
      invariant 0 <= i <= |keys|
      invariant hashCode == KeyHash(keys[..i], a)
    {
      var field := keys[i];
      if field.name in a.props {
        var hashValue := FieldHash(a.props[field.name]);
        if hashValue.Some? {
          hashCode := Wrap32(37 * hashCode + hashValue.value);
        }
      }
      assert keys[..i + 1][..i] == keys[..i];
      i := i + 1;
    }
    assert keys[..i] == keys;
  }

  /** `hashCode()`, fetching the key list through the metadata cache. */
  method HashCode(registry: Registry, a: Bean) returns (hashCode: Int32)
    requires registry.Valid() && registry.Knows(a.cls)
    modifies registry
    ensures registry.Valid() && registry.Knows(a.cls)
    ensures a.cls.name in old(registry.entries) ==> registry.entries == old(registry.entries)
    ensures hashCode == Hash(a)
  {
    var fields := registry.GetAnnotatedFields(a.cls);
    hashCode := HashKeys(fields.keyFields, a);
  }

  /** The contributions of the key fields that are not skipped, in order. */
  function Contributions(keys: seq<FieldDecl>, a: Bean): seq<Int32>
    decreases |keys|
  {
    if keys == [] then []
    else
      var cs := Contributions(keys[..|keys| - 1], a);
      match Contribution(a, keys[|keys| - 1])
      case Some(c) => cs + [c]
      case None => cs
  }

  /** The polynomial `c0 * 37^(n-1) + ... + c(n-1)` over the integers. */
  function Poly37(cs: seq<Int32>): int
    decreases |cs|
  {
    if cs == [] then 0 else 37 * Poly37(cs[..|cs| - 1]) + cs[|cs| - 1]
  }

  /** The hash is the base-37 polynomial of the contributions, reduced to 32 bits once at the
      end: wrapping at every step changes nothing. */
  lemma {:induction false} KeyHashIsPolynomial(keys: seq<FieldDecl>, a: Bean)
    ensures KeyHash(keys, a) == Wrap32(Poly37(Contributions(keys, a)))
    decreases |keys|
  {
    if keys != [] {
      var init := keys[..|keys| - 1];
      KeyHashIsPolynomial(init, a);
      var cs := Contributions(init, a);
      match Contribution(a, keys[|keys| - 1])
      case Some(c) =>
        assert (cs + [c])[..|cs + [c]| - 1] == cs;
        WrapThenStep(Poly37(cs), c);
      case None =>
    }
  }

  /** Wrapping the accumulator before a step `37 * h + c` does not change the wrapped result. */
  lemma WrapThenStep(p: int, c: int)
    ensures Wrap32(37 * Wrap32(p) + c) == Wrap32(37 * p + c)
  {
    var k := (Wrap32(p) - p) / TWO_32;
    assert Wrap32(p) - p == k * TWO_32;
    assert (37 * Wrap32(p) + c) - (37 * p + c) == (37 * k) * TWO_32;
    Wrap32Congruent(37 * Wrap32(p) + c, 37 * p + c);
  }

  /** The hash depends on nothing but the key values each side can read. */
  lemma {:induction false} KeyHashReadsOnlyKeys(keys: seq<FieldDecl>, a: Bean, b: Bean)
    requires forall f :: f in keys ==> (f.name in a.props <==> f.name in b.props)
    requires forall f :: f in keys && f.name in a.props ==> a.props[f.name] == b.props[f.name]
    ensures KeyHash(keys, a) == KeyHash(keys, b)
    decreases |keys|
  {
    if keys != [] {
      KeyHashReadsOnlyKeys(keys[..|keys| - 1], a, b);
      assert keys[|keys| - 1] in keys;
    }
  }

  /** Equal beans of one class have equal hash codes, provided each key property is readable
      on both or on neither. */
  lemma EqualBeansHashEqual(a: Bean, b: Bean)
    requires a.cls == b.cls
    requires forall f :: f in Metadata(a).keyFields ==> (f.name in a.props <==> f.name in b.props)
    requires Equals(a, Some(b))
    ensures Hash(a) == Hash(b)
  {
    KeyHashReadsOnlyKeys(Metadata(a).keyFields, a, b);
  }

  // ---------------------------------------------------------------------------------------
  // compareTo

  /** The loop of `compareTo`. Per key field: unreadable on either side, skipped; both null,
      the answer is 0 at once; one null, the non-null side is greater; a declared type with
      `compareTo`, its result unless it is 0 (and a failed reflective call is skipped);
      otherwise unequal values are ordered by their hash codes, 1 only if the receiver's is
      greater. */
  function CompareKeys(keys: seq<FieldDecl>, a: Bean, b: Bean): int
    decreases |keys|
  {
    if keys == [] then 0
    else
      match KeyVerdict(keys[0], a, b)
      case Some(r) => r
      case None => CompareKeys(keys[1..], a, b)
  }

  /** What one key field decides in that walk: `Some(r)` answers `r`, `None` goes on. */
  function KeyVerdict(f: FieldDecl, a: Bean, b: Bean): Option<int>
  {
    if f.name !in a.props || f.name !in b.props then None
    else ValueVerdict(f.jtype, a.props[f.name], b.props[f.name])
  }

  /** The verdict on two values read from a key field of declared type `t`. */
  function ValueVerdict(t: JavaType, x: Value, y: Value): Option<int>
  {
    if x == Null && y == Null then Some(0)
    else if x != Null && y == Null then Some(1)
    else if x == Null && y != Null then Some(-1)
    else if HasCompareTo(t) then
      match NativeCompare(x, y)
      case Some(r) => if r != 0 then Some(r) else None
      case None => None
    else if x != y then
      Some(if JavaHashCode(x) > JavaHashCode(y) then 1 else -1)
    else None
  }

  /** `a.compareTo(other)`: 1 for null, 0 when `equals` holds, otherwise the key walk. */
  function CompareTo(a: Bean, other: Option<Bean>): int
  {
    if other.None? then 1
    else if Equals(a, other) then 0
    else CompareKeys(Metadata(a).keyFields, a, other.value)
  }

  /** `compareTo`, fetching the key list through the metadata cache. */
  method Compare(registry: Registry, a: Bean, other: Option<Bean>) returns (r: int)
    requires registry.Valid() && registry.Knows(a.cls)
    modifies registry
    ensures registry.Valid() && registry.Knows(a.cls)
    ensures a.cls.name in old(registry.entries) ==> registry.entries == old(registry.entries)
    ensures r == CompareTo(a, other)
  {
    if other.None? {
      return 1;
    }
    var equal := EqualsCheck(registry, a, other);
    if equal {
      return 0;
    }
    var fields := registry.GetAnnotatedFields(a.cls);
    r := CompareLoop(fields.keyFields, a, other.value);
  }

  /** The loop of `compareTo` over a key list. */
  method CompareLoop(keys: seq<FieldDecl>, a: Bean, b: Bean) returns (r: int)
    ensures r == CompareKeys(keys, a, b)
  {
    var i := 0;
    while i < |keys|
      invariant 0 <= i <= |keys|
      invariant CompareKeys(keys[i..], a, b) == CompareKeys(keys, a, b)
    {
      var field := keys[i];
      assert keys[i..][0] == field && keys[i..][1..] == keys[i + 1..];
      assert CompareKeys(keys[i..], a, b) ==
        match KeyVerdict(field, a, b) case Some(v) => v case None => CompareKeys(keys[i + 1..], a, b);
      if field.name in a.props && field.name in b.props {
        var thisValue, objValue := a.props[field.name], b.props[field.name];
        if thisValue == Null && objValue == Null { return 0; }
        if thisValue != Null && objValue == Null { return 1; }
        if thisValue == Null && objValue != Null { return -1; }
        if HasCompareTo(field.jtype) {
          var result := NativeCompare(thisValue, objValue);
          if result.Some? && result.value != 0 {
            return result.value;
          }
        } else if thisValue != objValue {
          if JavaHashCode(thisValue) > JavaHashCode(objValue) {
            return 1;
          } else {
            return -1;
          }
        }
      }
      i := i + 1;
    }
    return 0;
  }

  /** Every key field readable on both sides whose non-null values differ is a field without
      `compareTo` whose values also differ in their hash codes. */
  ghost predicate NoHashTies(keys: seq<FieldDecl>, a: Bean, b: Bean)
  {
    forall f :: (f in keys && f.name in a.props && f.name in b.props && !HasCompareTo(f.jtype) &&
                 a.props[f.name] != Null && b.props[f.name] != Null && a.props[f.name] != b.props[f.name])
                ==> JavaHashCode(a.props[f.name]) != JavaHashCode(b.props[f.name])
  }

  /** The key walk is antisymmetric, exactly, as long as the hash-code fallback meets no tie. */
  lemma {:induction false} CompareKeysAntisymmetric(keys: seq<FieldDecl>, a: Bean, b: Bean)
    requires NoHashTies(keys, a, b)
    ensures CompareKeys(keys, b, a) == -CompareKeys(keys, a, b)
    decreases |keys|
  {
    if keys != [] {
      var f := keys[0];
      assert forall g :: g in keys[1..] ==> g in keys;
      CompareKeysAntisymmetric(keys[1..], a, b);
      if f.name in a.props && f.name in b.props {
        NativeCompareAntisymmetric(a.props[f.name], b.props[f.name]);
      }
    }
  }

  /** So `compareTo` between two beans of one class is antisymmetric under the same proviso,
      and it is 0 both ways when they are equal. */
  lemma CompareToAntisymmetric(a: Bean, b: Bean)
    requires a.cls == b.cls
    requires NoHashTies(Metadata(a).keyFields, a, b)
    ensures CompareTo(b, Some(a)) == -CompareTo(a, Some(b))
    ensures Equals(a, Some(b)) ==> CompareTo(a, Some(b)) == 0 && CompareTo(b, Some(a)) == 0
  {
    EqualsReflexiveSymmetric(a, b);
    CompareKeysAntisymmetric(Metadata(a).keyFields, a, b);
  }

  /** The key walk stops at its first decisive field: the fields before it cannot tell the
      beans apart, and a non-null value beats a null one on either side. */
  lemma {:induction false} CompareKeysDecidedAt(keys: seq<FieldDecl>, a: Bean, b: Bean, i: nat)
    requires i < |keys|
    requires forall j :: 0 <= j < i ==>
      AgreeOn(a, b, keys[j].name) && a.props[keys[j].name] != Null &&
      (HasCompareTo(keys[j].jtype) ==> NativeCompare(a.props[keys[j].name], b.props[keys[j].name]).Some?)
    requires keys[i].name in a.props && keys[i].name in b.props
    requires (a.props[keys[i].name] == Null) != (b.props[keys[i].name] == Null)
    ensures a.props[keys[i].name] != Null ==> CompareKeys(keys, a, b) == 1
    ensures a.props[keys[i].name] == Null ==> CompareKeys(keys, a, b) == -1
    decreases i
  {
    if i > 0 {
      var v := a.props[keys[0].name];
      if HasCompareTo(keys[0].jtype) {
        NativeCompareZero(v, v);
      }
      CompareKeysDecidedAt(keys[1..], a, b, i - 1);
    }
  }

  // ---------------------------------------------------------------------------------------
  // compareTo as evidently intended

  /** Every key value a bean can read conforms to the field's declared type. */
  ghost predicate Conforming(keys: seq<FieldDecl>, a: Bean)
  {
    forall f :: f in keys && f.name in a.props ==> Conforms(f.jtype, a.props[f.name])
  }

  /** The key walk with two corrections: a field null on both sides lets the walk go on to
      the next field instead of answering 0, and values that have a natural order (primitive
      ones included) are compared by it, the hash-code fallback being kept for values without
      one. */
  function CompareKeysFixed(keys: seq<FieldDecl>, a: Bean, b: Bean): int
    decreases |keys|
  {
    if keys == [] then 0
    else
      match KeyVerdictFixed(keys[0], a, b)
      case Some(r) => r
      case None => CompareKeysFixed(keys[1..], a, b)
  }

  function KeyVerdictFixed(f: FieldDecl, a: Bean, b: Bean): Option<int>
  {
    if f.name !in a.props || f.name !in b.props then None
    else ValueVerdictFixed(a.props[f.name], b.props[f.name])
  }

  function ValueVerdictFixed(x: Value, y: Value): Option<int>
  {
    if x == Null && y == Null then None
    else if x != Null && y == Null then Some(1)
    else if x == Null && y != Null then Some(-1)
    else
      match NativeCompare(x, y)
      case Some(r) => if r != 0 then Some(r) else None
      case None =>
        if x == y then None
        else Some(if JavaHashCode(x) > JavaHashCode(y) then 1 else -1)
  }

  /** With ordered key types, the corrected walk is 0 exactly when `equals` holds ... */
  lemma {:induction false} CompareKeysFixedZeroIffEqual(keys: seq<FieldDecl>, a: Bean, b: Bean)
    requires forall f :: f in keys ==> Ordered(f.jtype)
    requires Conforming(keys, a) && Conforming(keys, b)
    ensures CompareKeysFixed(keys, a, b) == 0 <==> KeysEqual(keys, a, b)
    decreases |keys|
  {
    if keys != [] {
      var f := keys[0];
      assert forall g :: g in keys[1..] ==> g in keys;
      CompareKeysFixedZeroIffEqual(keys[1..], a, b);
      if f.name in a.props && f.name in b.props {
        var x, y := a.props[f.name], b.props[f.name];
        if x != Null && y != Null {
          NativeCompareDefined(f.jtype, x, y);
          NativeCompareZero(x, y);
        }
      }
    }
  }

  /** ... and it is antisymmetric without any proviso. */
  lemma {:induction false} CompareKeysFixedAntisymmetric(keys: seq<FieldDecl>, a: Bean, b: Bean)
    requires forall f :: f in keys ==> Ordered(f.jtype)
    requires Conforming(keys, a) && Conforming(keys, b)
    ensures CompareKeysFixed(keys, b, a) == -CompareKeysFixed(keys, a, b)
    decreases |keys|
  {
    if keys != [] {
      var f := keys[0];
      assert forall g :: g in keys[1..] ==> g in keys;
      CompareKeysFixedAntisymmetric(keys[1..], a, b);
      if f.name in a.props && f.name in b.props {
        var x, y := a.props[f.name], b.props[f.name];
        if x != Null && y != Null {
          NativeCompareDefined(f.jtype, x, y);
          NativeCompareAntisymmetric(x, y);
        }
      }
    }
  }

  /** `compareTo` with the corrected key walk. */
  function CompareToFixed(a: Bean, other: Option<Bean>): int
  {
    if other.None? then 1
    else if Equals(a, other) then 0
    else CompareKeysFixed(Metadata(a).keyFields, a, other.value)
  }

  /** The corrected `compareTo` is consistent with `equals` and antisymmetric for beans of one
      class whose key types are ordered. */
  lemma CompareToFixedConsistent(a: Bean, b: Bean)
    requires a.cls == b.cls
    requires forall f :: f in Metadata(a).keyFields ==> Ordered(f.jtype)
    requires Conforming(Metadata(a).keyFields, a) && Conforming(Metadata(a).keyFields, b)
    ensures CompareToFixed(a, Some(b)) == 0 <==> Equals(a, Some(b))
    ensures CompareToFixed(b, Some(a)) == -CompareToFixed(a, Some(b))
  {
    EqualsReflexiveSymmetric(a, b);
    CompareKeysFixedZeroIffEqual(Metadata(a).keyFields, a, b);
    CompareKeysFixedAntisymmetric(Metadata(a).keyFields, a, b);
  }

  // ---------------------------------------------------------------------------------------
  // What the key walk as written gets wrong

  /** A class whose only key is a primitive `long`. */
  const LongKeyed := ClassDecl("demo.Account", "Account", [FieldDecl("id", PrimitiveType(LongP), Some(1), false, false)])

  /** Ids 0 and -1 are not equal, have the same `Long.hashCode` (0), and so each compares
      below the other: the hash-code fallback breaks antisymmetry. */
  lemma PrimitiveKeyHashTie()
    ensures var a, b := Bean(LongKeyed, map["id" := Long(0)]), Bean(LongKeyed, map["id" := Long(-1)]);
      && !Equals(a, Some(b))
      && CompareTo(a, Some(b)) == -1 && CompareTo(b, Some(a)) == -1
  {
    var a, b := Bean(LongKeyed, map["id" := Long(0)]), Bean(LongKeyed, map["id" := Long(-1)]);
    LongKeyedUnequal();
    var f := LongKeyed.fields[0];
    LongHashOfNonNegativeInt(0);
    LongHashOfNegativeInt(-1);
    assert ValueVerdict(f.jtype, Long(0), Long(-1)) == Some(-1);
    assert ValueVerdict(f.jtype, Long(-1), Long(0)) == Some(-1);
  }

  lemma LongKeyedUnequal()
    ensures var a, b := Bean(LongKeyed, map["id" := Long(0)]), Bean(LongKeyed, map["id" := Long(-1)]);
      Metadata(a).keyFields == Metadata(b).keyFields == LongKeyed.fields && !Equals(a, Some(b)) && !Equals(b, Some(a))
  {
    LongKeyedMetadata();
    assert LongKeyed.fields[0] in LongKeyed.fields;
  }

  lemma LongKeyedMetadata()
    ensures Annotate(LongKeyed.fields).keyFields == LongKeyed.fields
  {
    var fs := LongKeyed.fields;
    assert fs[..|fs| - 1] == [];
    assert Scan(fs) == Scanned([(1, fs[0])], fs, [], []);
  }
}
