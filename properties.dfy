/**
 * The mutable group of uniquely named properties
 * (smallgears.api.properties.Properties).
 *
 * Properties extends Group<Property,Properties> in the source; here a
 * Properties object holds a Group of properties whose naming function is the
 * property's name and whose hooks are the base class's ones.
 */
module Properties {
  import opened Wrappers
  import Group
  import P = Property

  /** The naming function Property::name. */
  function NameOf(p: P.Property): string {
    p.name
  }

  /** coll: each bare name wrapped into a property with an absent value. */
  function Coll(names: seq<string>): (ps: seq<P.Property>)
    ensures |ps| == |names|
    ensures forall i :: 0 <= i < |names| ==> ps[i].name == names[i] && ps[i].value == P.Null
  {
    seq(|names|, i requires 0 <= i < |names| => P.Prop(names[i]))
  }

  /** Valueless properties, one for each of the given names. */
  function Valueless(names: seq<string>): map<string, P.Property> {
    map n | n in names :: P.Prop(n)
  }

  /** One more name adds one more valueless property. */
  lemma ValuelessSnoc(init: seq<string>, n: string)
    ensures Valueless(init + [n]) == Valueless(init)[n := P.Prop(n)]
  {
    var v, v' := Valueless(init), Valueless(init + [n]);
    forall k | k in v' ensures k in v || k == n {
      assert k in init + [n];
    }
    forall k | k in v ensures k in v' {
      assert k in init + [n];
    }
  }

  /** Adding wrapped names stores, for each name, a valueless property, overwriting what was there. */
  lemma {:induction false} PutAllColl(m: map<string, P.Property>, names: seq<string>)
    ensures Group.PutAll(m, NameOf, Group.AdmitAll, Coll(names)) == m + Valueless(names)
    decreases |names|
  {
    if names != [] {
      var init, last := names[..|names| - 1], names[|names| - 1];
      var ps := Coll(names);
      assert ps[..|ps| - 1] == Coll(init);
      assert ps[|ps| - 1] == P.Prop(last);
      PutAllColl(m, init);
      calc {
        Group.PutAll(m, NameOf, Group.AdmitAll, ps);
        Group.Put(m + Valueless(init), NameOf, Group.AdmitAll, P.Prop(last));
        (m + Valueless(init))[last := P.Prop(last)];
        m + Valueless(init)[last := P.Prop(last)];
        { assert names == init + [last]; ValuelessSnoc(init, last); }
        m + Valueless(names);
      }
    }
  }

  /** The derived names of wrapped names are the names themselves. */
  lemma NamesInColl(names: seq<string>)
    ensures Group.NamesIn(Coll(names), NameOf) == Group.SetOf(names)
  {
    var ps := Coll(names);
    forall n | n in names ensures n in Group.NamesIn(ps, NameOf) {
      var i :| 0 <= i < |names| && names[i] == n;
      assert ps[i] in ps;
    }
  }

  /** Bags built from the same properties with distinct names, in any order, hold the same map. */
  lemma PropsOrderIndependent(ps: seq<P.Property>, qs: seq<P.Property>)
    requires Group.DistinctNames(ps, NameOf)
    requires forall p :: p in ps <==> p in qs
    ensures Group.PutAll(map[], NameOf, Group.AdmitAll, ps) == Group.PutAll(map[], NameOf, Group.AdmitAll, qs)
  {
    Group.PutAllOrderIndependent(map[], NameOf, Group.AdmitAll, ps, qs);
  }

  class Properties {
    /** The inherited group state. */
    const group: Group.Group<P.Property>

    /** The group is named by property name and keeps the base class's hooks. */
    ghost predicate Valid()
      reads this, group
    {
      && group.Valid()
      && group.name == NameOf
      && group.admits == Group.AdmitAll<P.Property>
      && group.protects == Group.ProtectNone
    }

    /** The private constructor: an empty bag named by Property::name. */
    constructor ()
      ensures Valid() && fresh(group) && group.elements == map[]
    {
      group := new Group.Group(NameOf);
    }

    /** props(p1..pn): an empty bag followed by add(p1..pn). */
    static method Props(ps: seq<P.Property>) returns (r: Properties)
      ensures fresh(r) && fresh(r.group) && r.Valid()
      ensures r.group.elements == Group.PutAll(map[], NameOf, Group.AdmitAll, ps)
    {
      r := new Properties();
      r.group.AddAll(ps);
    }

    /** prop(name, value): a pure factory, the same as Property.prop. */
    static function Prop(name: string, value: P.Value): (p: P.Property)
      ensures p.name == name && p.value == value
    {
      P.PropOf(name, value)
    }

    /** add(String...) and add(Collection<String>): a valueless property per name, through add(E). */
    method AddNames(names: seq<string>)
      requires Valid()
      modifies group
      ensures Valid()
      ensures group.elements == old(group.elements) + Valueless(names)
    {
      group.AddAll(Coll(names));
      PutAllColl(old(group.elements), names);
    }

    /** remove(Collection<String>): the listed names that are present go, through remove(String). */
    method RemoveNames(names: seq<string>)
      requires Valid()
      modifies group
      ensures Valid()
      ensures group.elements == map k | k in old(group.elements) && k !in names :: old(group.elements)[k]
    {
      group.RemoveElements(Coll(names));
      NamesInColl(names);
    }

    /** getOr(String, String): the stored property, or a fresh one holding the fallback, not added. */
    function GetOr(n: string, fallback: P.Value): (p: P.Property)
      reads this, group
      requires fallback.Null? || fallback.Str?
      ensures n in group.elements ==> p == group.elements[n]
      ensures n !in group.elements ==> p == P.Property(n, fallback)
      ensures Valid() ==> p.name == n
    {
      match group.Get(n)
      case Some(q) => q
      case None => Prop(n, fallback)
    }
  }

  /** Every key of a bag equals the name of the property stored under it. */
  lemma KeysAreNames(ps: Properties, k: string)
    requires ps.Valid() && k in ps.group.elements
    ensures ps.group.elements[k].name == k
  {
    assert ps.group.name(ps.group.elements[k]) == k;
  }
}
