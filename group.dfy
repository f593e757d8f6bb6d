/**
 * The mutable group of uniquely named elements (smallgears.api.group.Group).
 *
 * A group maps each element's name, derived by a naming function fixed at
 * construction, to the element.  All mutation goes through two single-item
 * hooks, add(E) and remove(String), which subclasses may override to refuse
 * storing an element or to refuse deleting a key.  The model states those
 * overrides as two predicates fixed at construction: `admits` (is this element
 * stored?) and `protects` (is this key kept?).
 */
module Group {
  import opened Wrappers

  // ------------------------------------------------------------------ default hooks

  /** The add(E) hook of the base class stores every element. */
  function AdmitAll<E>(e: E): bool { true }

  /** The remove(String) hook of the base class deletes every key. */
  function ProtectNone(k: string): bool { false }

  // ------------------------------------------------------------------ map-level specification

  /** Every stored element sits under the key its naming function derives. */
  ghost predicate NamedBy<E>(m: map<string, E>, name: E -> string) {
    forall k :: k in m ==> name(m[k]) == k
  }

  /** No two different elements of `es` share a name. */
  ghost predicate DistinctNames<E>(es: seq<E>, name: E -> string) {
    forall e, f :: e in es && f in es && name(e) == name(f) ==> e == f
  }

  /** The map after the add(E) hook has been given `e`. */
  function Put<E>(m: map<string, E>, name: E -> string, admits: E -> bool, e: E): map<string, E> {
    if admits(e) then m[name(e) := e] else m
  }

  /** The map after the add(E) hook has been given each element of `es`, in order. */
  function PutAll<E>(m: map<string, E>, name: E -> string, admits: E -> bool, es: seq<E>): map<string, E>
    decreases |es|
  {
    if es == [] then m
    else Put(PutAll(m, name, admits, es[..|es| - 1]), name, admits, es[|es| - 1])
  }

  /** The map after the remove(String) hook has been given each key of `ks` (in any order). */
  function Keep<E>(m: map<string, E>, protects: string -> bool, ks: set<string>): map<string, E> {
    map k | k in m && (k !in ks || protects(k)) :: m[k]
  }

  /** The entries of `m` whose element the add(E) hook admits. */
  function Admitted<E>(m: map<string, E>, admits: E -> bool): map<string, E> {
    map k | k in m && admits(m[k]) :: m[k]
  }

  /** The distinct members of a sequence. */
  function SetOf<T(==)>(s: seq<T>): set<T> {
    set x | x in s
  }

  /** The names the naming function derives from the elements of a sequence. */
  function NamesIn<E(==)>(es: seq<E>, name: E -> string): set<string> {
    set e | e in es :: name(e)
  }

  /** The admitted entries of `src` whose element is no longer in `rest`: what a walk over src's elements has added so far. */
  ghost function Walked<E>(src: map<string, E>, admits: E -> bool, rest: set<E>): map<string, E> {
    map k | k in src && src[k] !in rest && admits(src[k]) :: src[k]
  }

  /** The names the naming function derives from the elements of a set. */
  function NamesOf<E>(es: set<E>, name: E -> string): set<string> {
    set e | e in es :: name(e)
  }

  /** The admitted elements of `es`, each under its name (well defined when names are distinct). */
  function Gathered<E(==)>(es: seq<E>, name: E -> string, admits: E -> bool): map<string, E>
    requires DistinctNames(es, name)
  {
    map e | e in es && admits(e) :: name(e) := e
  }

  // ------------------------------------------------------------------ lemmas about the specification

  /** Overwriting a present key keeps the size; a new admitted key adds one. */
  lemma PutSize<E>(m: map<string, E>, name: E -> string, admits: E -> bool, e: E)
    ensures |Put(m, name, admits, e)| == if admits(e) && name(e) !in m then |m| + 1 else |m|
  {
    if admits(e) && name(e) in m {
      assert m[name(e) := e].Keys == m.Keys;
    }
  }

  /** Bulk add preserves the naming invariant, since add(E) is the only insertion point. */
  lemma {:induction false} PutAllNamed<E>(m: map<string, E>, name: E -> string, admits: E -> bool, es: seq<E>)
    requires NamedBy(m, name)
    ensures NamedBy(PutAll(m, name, admits, es), name)
  {
    if es != [] {
      PutAllNamed(m, name, admits, es[..|es| - 1]);
    }
  }

  /** A key is present after a bulk add iff it was present before or some admitted element carries it. */
  lemma {:induction false} PutAllKeys<E>(m: map<string, E>, name: E -> string, admits: E -> bool, es: seq<E>, k: string)
    ensures k in PutAll(m, name, admits, es) <==>
            k in m || exists i :: 0 <= i < |es| && admits(es[i]) && name(es[i]) == k
  {
    if es != [] {
      var init := es[..|es| - 1];
      PutAllKeys(m, name, admits, init, k);
      if exists i :: 0 <= i < |init| && admits(init[i]) && name(init[i]) == k {
        var i :| 0 <= i < |init| && admits(init[i]) && name(init[i]) == k;
        assert es[i] == init[i];
      }
      if exists i :: 0 <= i < |es| && admits(es[i]) && name(es[i]) == k {
        var i :| 0 <= i < |es| && admits(es[i]) && name(es[i]) == k;
        if i < |init| { assert init[i] == es[i]; }
      }
    }
  }

  /** A key no admitted element carries keeps its old entry (or stays absent). */
  lemma {:induction false} PutAllUntouched<E>(m: map<string, E>, name: E -> string, admits: E -> bool, es: seq<E>, k: string)
    requires forall i :: 0 <= i < |es| && admits(es[i]) ==> name(es[i]) != k
    ensures k in PutAll(m, name, admits, es) <==> k in m
    ensures k in m ==> PutAll(m, name, admits, es)[k] == m[k]
  {
    if es != [] {
      PutAllUntouched(m, name, admits, es[..|es| - 1], k);
    }
  }

  /** A later colliding key wins: the entry is the last admitted element carrying that key. */
  lemma {:induction false} PutAllLastWins<E>(m: map<string, E>, name: E -> string, admits: E -> bool, es: seq<E>, i: nat)
    requires i < |es| && admits(es[i])
    requires forall j :: i < j < |es| && admits(es[j]) ==> name(es[j]) != name(es[i])
    ensures name(es[i]) in PutAll(m, name, admits, es)
    ensures PutAll(m, name, admits, es)[name(es[i])] == es[i]
  {
    var init := es[..|es| - 1];
    if i < |es| - 1 {
      PutAllLastWins(m, name, admits, init, i);
    }
  }

  /** Adding `a` then `b` equals adding `a + b`: chained bulk adds are one bulk add. */
  lemma {:induction false} PutAllAppend<E>(m: map<string, E>, name: E -> string, admits: E -> bool, a: seq<E>, b: seq<E>)
    ensures PutAll(m, name, admits, a + b) == PutAll(PutAll(m, name, admits, a), name, admits, b)
    decreases |b|
  {
    if b == [] {
      assert a + b == a;
    } else {
      var b' := b[..|b| - 1];
      assert (a + b)[..|a + b| - 1] == a + b';
      PutAllAppend(m, name, admits, a, b');
    }
  }

  /** Gathering one more element with a fresh name adds it under that name. */
  lemma GatheredSnoc<E>(es: seq<E>, name: E -> string, admits: E -> bool)
    requires es != [] && DistinctNames(es, name)
    ensures DistinctNames(es[..|es| - 1], name)
    ensures var init, last := es[..|es| - 1], es[|es| - 1];
            Gathered(es, name, admits) ==
              if admits(last) then Gathered(init, name, admits)[name(last) := last]
              else Gathered(init, name, admits)
  {
    var init, last := es[..|es| - 1], es[|es| - 1];
    assert es == init + [last];
    var g, g' := Gathered(init, name, admits), Gathered(es, name, admits);
    var h := if admits(last) then g[name(last) := last] else g;
    forall k | k in g' ensures k in h && h[k] == g'[k] {
      var e :| e in es && admits(e) && name(e) == k;
      if e != last { assert e in init; }
    }
    forall k | k in h ensures k in g' {
      if admits(last) && k == name(last) {
        assert last in es;
      } else {
        var e :| e in init && admits(e) && name(e) == k;
        assert e in es;
      }
    }
  }

  /** Updating an overlay is overlaying the updated map. */
  lemma OverlayUpdate<E>(m: map<string, E>, g: map<string, E>, k: string, e: E)
    ensures (m + g)[k := e] == m + g[k := e]
  {
  }

  /** With distinct names the order of a bulk add does not matter: it overlays the admitted elements. */
  lemma {:induction false} PutAllDistinct<E>(m: map<string, E>, name: E -> string, admits: E -> bool, es: seq<E>)
    requires DistinctNames(es, name)
    ensures PutAll(m, name, admits, es) == m + Gathered(es, name, admits)
  {
    if es != [] {
      var init, last := es[..|es| - 1], es[|es| - 1];
      GatheredSnoc(es, name, admits);
      PutAllDistinct(m, name, admits, init);
      var g := Gathered(init, name, admits);
      assert PutAll(m, name, admits, es) == Put(m + g, name, admits, last);
      if admits(last) {
        OverlayUpdate(m, g, name(last), last);
      }
    }
  }

  /** One more step of the walk over src's elements adds that element, if admitted, under its name. */
  lemma WalkedStep<E>(src: map<string, E>, name: E -> string, admits: E -> bool, rest: set<E>, e: E)
    requires NamedBy(src, name) && e in rest && rest <= src.Values
    ensures Walked(src, admits, rest - {e}) ==
            if admits(e) then Walked(src, admits, rest)[name(e) := e] else Walked(src, admits, rest)
  {
    var k :| k in src && src[k] == e;
    assert k == name(e);
  }

  /** Two bulk adds of the same elements with distinct names, in any order, give equal maps. */
  lemma PutAllOrderIndependent<E>(m: map<string, E>, name: E -> string, admits: E -> bool, es: seq<E>, fs: seq<E>)
    requires DistinctNames(es, name)
    requires forall e :: e in es <==> e in fs
    ensures PutAll(m, name, admits, es) == PutAll(m, name, admits, fs)
  {
    assert DistinctNames(fs, name);
    PutAllDistinct(m, name, admits, es);
    PutAllDistinct(m, name, admits, fs);
    assert Gathered(es, name, admits) == Gathered(fs, name, admits);
  }

  /** Under the naming invariant the elements are as many as the keys. */
  lemma {:induction false} NamedValuesCount<E>(m: map<string, E>, name: E -> string)
    requires NamedBy(m, name)
    ensures |m.Values| == |m.Keys|
    decreases |m.Keys|
  {
    if m.Keys != {} {
      var k :| k in m;
      var m' := map j | j in m && j != k :: m[j];
      assert m'.Keys == m.Keys - {k};
      assert m'.Values == m.Values - {m[k]} by {
        forall e | e in m.Values ensures e in m'.Values || e == m[k] {
          var j :| j in m && m[j] == e;
          if j != k { assert m'[j] == e; }
        }
      }
      NamedValuesCount(m', name);
    }
  }

  /** Under the naming invariant the names of the stored elements are exactly the keys. */
  lemma NamesOfValues<E>(m: map<string, E>, name: E -> string)
    ensures NamedBy(m, name) ==> NamesOf(m.Values, name) == m.Keys
  {
    if NamedBy(m, name) {
      forall k | k in m ensures k in NamesOf(m.Values, name) {
        assert m[k] in m.Values;
      }
    }
  }

  // ------------------------------------------------------------------ the group

  class Group<E(==)> {
    /** The backing map, from each element's name to the element. */
    var elements: map<string, E>
    /** The naming function, fixed at construction. */
    const name: E -> string
    /** The add(E) hook: an element is stored only when admitted. */
    const admits: E -> bool
    /** The remove(String) hook: a protected key is never deleted. */
    const protects: string -> bool

    /** Every pair (k, e) has name(e) == k, because add(E) is the only insertion point. */
    ghost predicate Valid()
      reads this
    {
      NamedBy(elements, name)
    }

    /** A group of the base class: no hook overridden. */
    constructor (name: E -> string)
      ensures Valid() && elements == map[]
      ensures this.name == name && admits == AdmitAll<E> && protects == ProtectNone
    {
      this.name, admits, protects := name, AdmitAll<E>, ProtectNone;
      elements := map[];
    }

    /** A group of a subclass that overrides the add(E) and remove(String) hooks. */
    constructor WithHooks(name: E -> string, admits: E -> bool, protects: string -> bool)
      ensures Valid() && elements == map[]
      ensures this.name == name && this.admits == admits && this.protects == protects
    {
      this.name, this.admits, this.protects := name, admits, protects;
      elements := map[];
    }

    // ---------------------------------------------------------------- mutators

    /** add(E): the single insertion point, overwriting any element of the same name. */
    method Add(e: E)
      requires Valid()
      modifies this
      ensures Valid()
      ensures elements == Put(old(elements), name, admits, e)
    {
      if admits(e) {
        elements := elements[name(e) := e];
      }
    }

    /** add(E...) and add(Iterable<E>): one add(E) per element, in order. */
    method AddAll(es: seq<E>)
      requires Valid()
      modifies this
      ensures Valid()
      ensures elements == PutAll(old(elements), name, admits, es)
    {
      for i := 0 to |es|
        invariant Valid()
        invariant elements == PutAll(old(elements), name, admits, es[..i])
      {
        assert es[..i + 1][..i] == es[..i];
        Add(es[i]);
      }
      assert es[..|es|] == es;
    }

    /** add(SELF other): one add(E) per element of a detached copy of `other`'s elements. */
    method AddGroup(other: Group<E>)
      requires Valid() && other.Valid() && other.name == name
      modifies this
      ensures Valid()
      ensures elements == old(elements) + Admitted(old(other.elements), admits)
    {
      ghost var src := other.elements;
      ghost var start := elements;
      var rest := other.Elements();
      while rest != {}
        invariant Valid()
        invariant NamedBy(src, name) && rest <= src.Values
        invariant elements == start + Walked(src, admits, rest)
        decreases rest
      {
        var e :| e in rest;
        WalkedStep(src, name, admits, rest, e);
        ghost var walked := Walked(src, admits, rest);
        assert admits(e) ==> (start + walked)[name(e) := e] == start + walked[name(e) := e];
        Add(e);
        rest := rest - {e};
      }
      assert Walked(src, admits, {}) == Admitted(src, admits);
    }

    /** remove(String): the single deletion point; an absent key is a no-op. */
    method Remove(k: string)
      requires Valid()
      modifies this
      ensures Valid()
      ensures elements == Keep(old(elements), protects, {k})
    {
      if !protects(k) {
        elements := elements - {k};
      }
    }

    /** remove(String...): one remove(String) per name. */
    method RemoveNames(ns: seq<string>)
      requires Valid()
      modifies this
      ensures Valid()
      ensures elements == Keep(old(elements), protects, SetOf(ns))
    {
      for i := 0 to |ns|
        invariant Valid()
        invariant elements == Keep(old(elements), protects, SetOf(ns[..i]))
      {
        assert SetOf(ns[..i + 1]) == SetOf(ns[..i]) + {ns[i]} by {
          assert ns[..i + 1] == ns[..i] + [ns[i]];
        }
        Remove(ns[i]);
      }
      assert ns[..|ns|] == ns;
    }

    /** remove(E...) and remove(Iterable<E>): one remove(String) per element, by derived name. */
    method RemoveElements(es: seq<E>)
      requires Valid()
      modifies this
      ensures Valid()
      ensures elements == Keep(old(elements), protects, NamesIn(es, name))
    {
      for i := 0 to |es|
        invariant Valid()
        invariant elements == Keep(old(elements), protects, NamesIn(es[..i], name))
      {
        assert NamesIn(es[..i + 1], name) == NamesIn(es[..i], name) + {name(es[i])} by {
          assert es[..i + 1] == es[..i] + [es[i]];
        }
        Remove(name(es[i]));
      }
      assert es[..|es|] == es;
    }

    /** remove(SELF other): one remove(String) per element of a detached copy of `other`'s elements. */
    method RemoveGroup(other: Group<E>)
      requires Valid()
      modifies this
      ensures Valid()
      ensures elements == Keep(old(elements), protects, NamesOf(old(other.elements).Values, name))
      ensures old(other.Valid()) && other.name == name ==>
                elements == Keep(old(elements), protects, old(other.elements).Keys)
    {
      ghost var src := other.elements;
      ghost var start := elements;
      var rest := other.Elements();
      while rest != {}
        invariant Valid()
        invariant rest <= src.Values
        invariant elements == Keep(start, protects, NamesOf(src.Values - rest, name))
        decreases rest
      {
        var e :| e in rest;
        assert NamesOf(src.Values - (rest - {e}), name) == NamesOf(src.Values - rest, name) + {name(e)};
        Remove(name(e));
        rest := rest - {e};
      }
      assert src.Values - rest == src.Values;
      if old(other.Valid()) && other.name == name {
        NamesOfValues(src, name);
      }
    }

    // ---------------------------------------------------------------- queries

    /** has(String...) and has(Iterable<String>): every name is a key (vacuously true for none). */
    function HasNames(ns: seq<string>): (r: bool)
      reads this
      ensures r <==> forall n :: n in ns ==> n in elements
    {
      if ns == [] then true else ns[0] in elements && HasNames(ns[1..])
    }

    /** has(E...) and has(Collection<E>): every element is, by equality, one of the stored elements. */
    function HasElements(es: seq<E>): (r: bool)
      reads this
      ensures r <==> forall e :: e in es ==> e in elements.Values
    {
      if es == [] then true else es[0] in elements.Values && HasElements(es[1..])
    }

    /** has(SELF other): every name of `other` is a key of this group. */
    function HasGroup(other: Group<E>): (r: bool)
      reads this, other
      ensures r <==> other.Names() <= Names()
    {
      forall n | n in other.elements :: n in elements
    }

    /** get(String): present iff the name is a key. */
    function Get(n: string): (r: Option<E>)
      reads this
      ensures r.Some? <==> n in elements
      ensures r.Some? ==> r.value == elements[n] && (Valid() ==> name(r.value) == n)
    {
      if n in elements then Some(elements[n]) else None
    }

    /** getOr(String, E): the stored element, or the fallback when the name is absent. */
    function GetOr(n: string, fallback: E): (r: E)
      reads this
      ensures n in elements ==> r == elements[n]
      ensures n !in elements ==> r == fallback
      ensures Valid() ==> name(r) == n || r == fallback
    {
      match Get(n)
      case Some(e) => e
      case None => fallback
    }

    /** size(): the number of keys. */
    function Size(): (r: nat)
      reads this
      ensures r == |Names()|
    {
      |elements|
    }

    /** empty(): size() == 0. */
    function Empty(): (r: bool)
      reads this
      ensures r <==> Size() == 0
      ensures r <==> elements == map[]
    {
      |elements| == 0
    }

    /** elements(): a detached set of the stored elements. */
    function Elements(): (r: set<E>)
      reads this
      ensures forall k :: k in elements ==> elements[k] in r
      ensures r <= elements.Values
      ensures Valid() ==> NamesOf(r, name) == Names()
    {
      NamesOfValues(elements, name);
      elements.Values
    }

    /** names(): a detached set of the keys. */
    function Names(): (r: set<string>)
      reads this
      ensures forall n :: n in r <==> Get(n).Some?
    {
      elements.Keys
    }

    /** equals: two groups are equal iff every lookup agrees. */
    predicate Equals(other: Group<E>)
      reads this, other
      ensures Equals(other) <==> Names() == other.Names() && forall n :: Get(n) == other.Get(n)
    {
      elements == other.elements
    }
  }

  /** size() counts the elements as well as the names. */
  lemma SizeCountsElements<E>(g: Group<E>)
    requires g.Valid()
    ensures g.Size() == |g.Elements()|
  {
    NamedValuesCount(g.elements, g.name);
  }

  /** Value membership implies key membership, since each element sits under its own name. */
  lemma HasElementsHasNames<E>(g: Group<E>, es: seq<E>)
    requires g.Valid() && g.HasElements(es)
    ensures g.HasNames(seq(|es|, i requires 0 <= i < |es| => g.name(es[i])))
  {
    var ns := seq(|es|, i requires 0 <= i < |es| => g.name(es[i]));
    forall n | n in ns ensures n in g.elements {
      var i :| 0 <= i < |es| && ns[i] == n;
      assert es[i] in es;
    }
  }
}
