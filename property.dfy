/**
 * A named property with a mutable, dynamically typed value
 * (smallgears.api.properties.Property).
 *
 * The value is a tagged union over the runtime classes the model knows, plus
 * Null for an absent value.  Class<?> arguments are a small class hierarchy in
 * which java.lang.Object is the supertype of everything and the runtime classes
 * of values (String, Integer, Long, Boolean) are final.
 */
module Property {
  import opened Wrappers

  /** Java's 32-bit and 64-bit signed integers. */
  newtype int32 = x: int | -0x8000_0000 <= x < 0x8000_0000
  newtype int64 = x: int | -0x8000_0000_0000_0000 <= x < 0x8000_0000_0000_0000

  /** The classes a value can be checked against. */
  datatype JavaClass =
    | ObjectClass        // java.lang.Object
    | CharSequenceClass  // java.lang.CharSequence
    | StringClass        // java.lang.String
    | NumberClass        // java.lang.Number
    | IntegerClass       // java.lang.Integer
    | LongClass          // java.lang.Long
    | BooleanClass       // java.lang.Boolean

  /** A property value: absent, or a boxed value of a final runtime class. */
  datatype Value =
    | Null
    | Str(s: string)
    | Int(i: int32)
    | Lng(l: int64)
    | Bool(b: bool)

  /** How far a class is below java.lang.Object. */
  function Depth(c: JavaClass): nat {
    match c
    case ObjectClass => 0
    case CharSequenceClass | NumberClass | BooleanClass => 1
    case StringClass | IntegerClass | LongClass => 2
  }

  /** The direct supertype of a class; java.lang.Object has none. */
  function Super(c: JavaClass): (r: Option<JavaClass>)
    ensures r.None? <==> c == ObjectClass
    ensures r.Some? ==> Depth(r.value) + 1 == Depth(c)
  {
    match c
    case ObjectClass => None
    case CharSequenceClass | NumberClass | BooleanClass => Some(ObjectClass)
    case StringClass => Some(CharSequenceClass)
    case IntegerClass | LongClass => Some(NumberClass)
  }

  /** c is d or one of d's subtypes (Class.isAssignableFrom, read from d). */
  predicate SubclassOf(c: JavaClass, d: JavaClass): (r: bool)
    ensures c == d ==> r
    ensures d == ObjectClass ==> r
    ensures r ==> Depth(d) <= Depth(c)
    decreases Depth(c)
  {
    c == d || (Super(c).Some? && SubclassOf(Super(c).value, d))
  }

  /** The runtime class of a present value (value.getClass()). */
  function RuntimeClass(v: Value): (r: JavaClass)
    requires !v.Null?
    ensures forall c :: SubclassOf(c, r) ==> c == r
  {
    match v
    case Str(_) => StringClass
    case Int(_) => IntegerClass
    case Lng(_) => LongClass
    case Bool(_) => BooleanClass
  }

  /** The failures of the typed accessors. */
  datatype Failure =
    | NullPointer                                                          // NullPointerException
    | IllegalState(value: Value, actual: JavaClass, requested: JavaClass)  // IllegalStateException

  /** A property: an immutable name and a value. Equality is structural over both. */
  datatype Property = Property(name: string, value: Value) {

    /** is(Class): the value is present and an instance of `t` (Class.isInstance). */
    predicate Is(t: JavaClass): (r: bool)
      ensures value.Null? ==> !r
      ensures !value.Null? && t == ObjectClass ==> r
      ensures r ==> Depth(t) <= Depth(RuntimeClass(value))
    {
      !value.Null? && SubclassOf(RuntimeClass(value), t)
    }

    /** as(Class): the value when it is an instance of `t`, otherwise the accessor's failure. */
    function As(t: JavaClass): (r: Result<Value, Failure>)
      ensures r.Ok? <==> Is(t)
      ensures r.Ok? ==> r.value == value
      ensures value.Null? ==> r == Err(NullPointer)
      ensures !value.Null? && !Is(t) ==> r == Err(IllegalState(value, RuntimeClass(value), t))
    {
      if Is(t) then Ok(value)
      else if value.Null? then Err(NullPointer)
      else Err(IllegalState(value, RuntimeClass(value), t))
    }

    /** asOr(fallback): the value if it has the fallback's runtime class, otherwise the fallback. */
    function AsOr(fallback: Value): (r: Result<Value, Failure>)
      ensures r.Err? <==> fallback.Null?
      ensures r.Err? ==> r.error == NullPointer
      ensures r.Ok? ==> r.value == value || r.value == fallback
      ensures r.Ok? ==> !r.value.Null? && RuntimeClass(r.value) == RuntimeClass(fallback)
    {
      if fallback.Null? then Err(NullPointer)
      else if Is(RuntimeClass(fallback)) then
        RuntimeClassIsFinal(RuntimeClass(value), fallback);
        Ok(value)
      else Ok(fallback)
    }

    /** value(v): the property with its value replaced and its name kept. */
    function WithValue(v: Value): (r: Property)
      ensures r.name == name && r.value == v
      ensures r.Is(ObjectClass) <==> !v.Null?
    {
      IsObjectIffPresent(Property(name, v));
      Property(name, v)
    }
  }

  /** prop(name): a property with an absent value. */
  function Prop(name: string): (p: Property)
    ensures p.name == name && p.value == Null
    ensures forall t :: !p.Is(t)
  {
    Property(name, Null)
  }

  /** prop(name, value): a property holding the given value. */
  function PropOf(name: string, value: Value): (p: Property)
    ensures p.name == name && p.value == value
    ensures p.Is(ObjectClass) <==> value != Null
  {
    IsObjectIffPresent(Property(name, value));
    Property(name, value)
  }

  // ------------------------------------------------------------------ the class hierarchy

  /** java.lang.Object is a supertype of every class. */
  lemma {:induction false} ObjectIsTop(c: JavaClass)
    ensures SubclassOf(c, ObjectClass)
    decreases Depth(c)
  {
    if c != ObjectClass {
      ObjectIsTop(Super(c).value);
    }
  }

  /** Subtyping is transitive. */
  lemma {:induction false} SubclassTransitive(a: JavaClass, b: JavaClass, c: JavaClass)
    requires SubclassOf(a, b) && SubclassOf(b, c)
    ensures SubclassOf(a, c)
    decreases Depth(a)
  {
    if a != b {
      SubclassTransitive(Super(a).value, b, c);
    }
  }

  /** A subtype is never shallower than its supertype. */
  lemma {:induction false} SubclassDeeper(a: JavaClass, b: JavaClass)
    requires SubclassOf(a, b)
    ensures Depth(b) <= Depth(a)
    decreases Depth(a)
  {
    if a != b {
      SubclassDeeper(Super(a).value, b);
    }
  }

  /** The runtime classes of values are final: the only class below one is itself. */
  lemma RuntimeClassIsFinal(c: JavaClass, v: Value)
    requires !v.Null? && SubclassOf(c, RuntimeClass(v))
    ensures c == RuntimeClass(v)
  {
    SubclassDeeper(c, RuntimeClass(v));
  }

  // ------------------------------------------------------------------ the typed accessors

  /** is(Object.class) holds exactly when the value is present. */
  lemma IsObjectIffPresent(p: Property)
    ensures p.Is(ObjectClass) <==> !p.value.Null?
  {
    if !p.value.Null? {
      ObjectIsTop(RuntimeClass(p.value));
    }
  }

  /** A value that is an instance of a class is an instance of each of its supertypes. */
  lemma IsUpwardClosed(p: Property, t: JavaClass, u: JavaClass)
    requires p.Is(t) && SubclassOf(t, u)
    ensures p.Is(u)
  {
    SubclassTransitive(RuntimeClass(p.value), t, u);
  }

  /** as(Object.class) returns every present value unchanged, and fails only on an absent one. */
  lemma AsObject(p: Property)
    ensures p.value.Null? ==> p.As(ObjectClass) == Err(NullPointer)
    ensures !p.value.Null? ==> p.As(ObjectClass) == Ok(p.value)
  {
    IsObjectIffPresent(p);
  }

  /** asOr returns the value exactly when it has the fallback's runtime class. */
  lemma AsOrChoice(p: Property, fallback: Value)
    requires !fallback.Null?
    ensures p.AsOr(fallback) ==
              Ok(if !p.value.Null? && RuntimeClass(p.value) == RuntimeClass(fallback) then p.value else fallback)
  {
    if !p.value.Null? && RuntimeClass(p.value) == RuntimeClass(fallback) {
      assert SubclassOf(RuntimeClass(p.value), RuntimeClass(fallback));
    }
  }

  /** Two properties are equal exactly when their names and values are. */
  lemma StructuralEquality(p: Property, q: Property)
    ensures p == q <==> p.name == q.name && p.value == q.value
  {
  }
}
