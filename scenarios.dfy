/**
 * The repository's unit tests (GroupTest, PropertyTest) as verified clients:
 * each method runs the test's calls on the model and its postcondition states
 * the test's assertions.
 */
module Scenarios {
  import opened Wrappers
  import Group
  import P = Property
  import Properties

  /** GroupTest.E: an element that is its name. */
  datatype Item = Item(name: string)

  function ItemName(e: Item): string {
    e.name
  }

  /** GroupTest.G2's add(E) override: refuses the element named "bad". */
  function NotBad(e: Item): bool {
    e != Item("bad")
  }

  /** GroupTest.G2's remove(String) override: keeps the key "good". */
  function IsGood(k: string): bool {
    k == "good"
  }

  /** A bulk add of two elements is two single adds. */
  lemma PutAllPair<E>(m: map<string, E>, name: E -> string, admits: E -> bool, a: E, b: E)
    ensures Group.PutAll(m, name, admits, [a, b]) == Group.Put(Group.Put(m, name, admits, a), name, admits, b)
  {
    assert [a, b][..1] == [a] && [a][..0] == [];
    assert Group.PutAll(m, name, admits, [a]) == Group.Put(m, name, admits, a);
  }

  /** Removing two elements removes their two names. */
  lemma NamesInPair<E>(name: E -> string, a: E, b: E)
    ensures Group.NamesIn([a, b], name) == {name(a), name(b)}
  {
    var ns := Group.NamesIn([a, b], name);
    forall n | n in ns ensures n == name(a) || n == name(b) {
      var e :| e in [a, b] && name(e) == n;
    }
    assert a in [a, b] && b in [a, b];
  }

  /** The members of a one-name sequence. */
  lemma SetOfSingle(n: string)
    ensures Group.SetOf([n]) == {n}
  {
    assert n in [n];
  }

  /** Removing every key of a group without protected keys empties it. */
  lemma KeepNone<E>(m: map<string, E>, ks: set<string>)
    requires m.Keys <= ks
    ensures Group.Keep(m, Group.ProtectNone, ks) == map[]
  {
    var r := Group.Keep(m, Group.ProtectNone, ks);
    assert r.Keys == {} by {
      forall k | k in m ensures k !in r {
        assert !Group.ProtectNone(k);
      }
    }
  }

  /** GroupTest.cruds, the queries on the group holding elements "1" and "2". */
  method CrudsQueries(g: Group.Group<Item>)
    returns (size: nat, hasBoth: bool, hasBothNames: bool, hasThree: bool, got1: bool, got3: bool, fallback: Item)
    requires g.elements == map["1" := Item("1"), "2" := Item("2")]
    ensures size == 2 && hasBoth && hasBothNames && !hasThree
    ensures got1 && !got3 && fallback == Item("3")
  {
    size := g.Size();
    assert g.elements["1"] == Item("1") && g.elements["2"] == Item("2");
    hasBoth := g.HasElements([Item("1"), Item("2")]);
    hasBothNames := g.HasNames(["1", "2"]);
    hasThree := g.HasElements([Item("1"), Item("2"), Item("3")]);
    assert Item("3") !in g.elements.Values;
    got1 := g.Get("1").Some?;
    got3 := g.Get("3").Some?;
    fallback := g.GetOr("3", Item("3"));
  }

  /** GroupTest.cruds. */
  method Cruds()
    returns (emptyFirst: bool, size: nat, hasBoth: bool, hasBothNames: bool, hasThree: bool,
             got1: bool, got3: bool, fallback: Item, emptyLast: bool)
    ensures emptyFirst && size == 2 && hasBoth && hasBothNames && !hasThree
    ensures got1 && !got3 && fallback == Item("3") && emptyLast
  {
    var g := new Group.Group(ItemName);
    emptyFirst := g.Empty();
    g.AddAll([Item("1"), Item("2")]);
    PutAllPair(map[], ItemName, Group.AdmitAll, Item("1"), Item("2"));
    size, hasBoth, hasBothNames, hasThree, got1, got3, fallback := CrudsQueries(g);
    g.RemoveElements([Item("1"), Item("3")]);
    NamesInPair(ItemName, Item("1"), Item("3"));
    ghost var middle := g.elements;
    g.RemoveNames(["2"]);
    SetOfSingle("2");
    KeepNone(middle, {"2"});
    emptyLast := g.Empty();
  }

  /** GroupTest.hooks: a refused element is silently not stored, a protected key survives removal. */
  method Hooks() returns (hasGood: bool, hasBad: bool, keptGood: bool)
    ensures hasGood && !hasBad && keptGood
  {
    var g := new Group.Group.WithHooks(ItemName, NotBad, IsGood);
    g.AddAll([Item("good"), Item("bad")]);
    PutAllPair(map[], ItemName, NotBad, Item("good"), Item("bad"));
    assert g.elements == map["good" := Item("good")];
    hasGood := g.HasNames(["good"]);
    hasBad := g.HasNames(["bad"]);
    g.RemoveNames(["good"]);
    keptGood := g.HasNames(["good"]);
  }

  /** PropertyTest.property. */
  lemma PropertyScenario()
    ensures var p := P.PropOf("n", P.Str("v"));
            && p == P.PropOf("n", P.Str("v"))
            && p.Is(P.StringClass)
            && p.As(P.ObjectClass) == Ok(P.Str("v"))
            && p.value == P.Str("v") && p.name == "n"
            && p.WithValue(P.Str("new")).value == P.Str("new")
            && !p.Is(P.IntegerClass)
            && p.As(P.IntegerClass) == Err(P.IllegalState(P.Str("v"), P.StringClass, P.IntegerClass))
  {
    P.AsObject(P.PropOf("n", P.Str("v")));
  }

  /** The properties of PropertyTest.properties. */
  const P1 := P.PropOf("n1", P.Str("v1"))
  const P2 := P.PropOf("n2", P.Str("v2"))
  const P3 := P.PropOf("n3", P.Str("v3"))
  const P4 := P.PropOf("n4", P.Str("v4"))

  /** props(p1, p2) holds exactly p1 and p2 under their names. */
  method PropsOfTwo(a: P.Property, b: P.Property) returns (ps: Properties.Properties)
    ensures fresh(ps) && fresh(ps.group) && ps.Valid()
    ensures ps.group.elements == map[a.name := a][b.name := b]
  {
    ps := Properties.Properties.Props([a, b]);
    PutAllPair(map[], Properties.NameOf, Group.AdmitAll, a, b);
  }

  /** PropertyTest.properties, the queries on the bag holding p1 and p2. */
  method PropertiesQueries(ps: Properties.Properties, bag: Properties.Properties)
    returns (hasBoth: bool, hasBothNames: bool, hasBag: bool, hasThird: bool, fallback: P.Property)
    requires ps.Valid() && ps.group.elements == map["n1" := P1, "n2" := P2]
    requires bag.group.elements == ps.group.elements
    ensures hasBoth && hasBothNames && hasBag && !hasThird
    ensures fallback == P.PropOf("bad", P.Str("default"))
  {
    assert ps.group.elements["n1"] == P1 && ps.group.elements["n2"] == P2;
    hasBoth := ps.group.HasElements([P1, P2]);
    hasBothNames := ps.group.HasNames([P1.name, P2.name]);
    hasBag := ps.group.HasGroup(bag.group);
    assert P3 !in ps.group.elements.Values;
    hasThird := ps.group.HasElements([P3]);
    fallback := ps.GetOr("bad", P.Str("default"));
  }

  /**
   * has by name and has by element differ: the bag holding p1 and p2 has the name "n1",
   * but not a property named "n1" whose value differs from p1's.
   */
  method SameNameOtherValue() returns (hasName: bool, hasElement: bool)
    ensures hasName && !hasElement
  {
    var ps := PropsOfTwo(P1, P2);
    var other := P.PropOf("n1", P.Str("other"));
    hasName := ps.group.HasNames([other.name]);
    assert other !in ps.group.elements.Values;
    hasElement := ps.group.HasElements([other]);
  }

  /** The bag holding p1 to p4. */
  ghost const AllFour := map["n1" := P1, "n2" := P2, "n3" := P3, "n4" := P4]

  /** ps.add(p3, p4) on the bag holding p1 and p2; the result equals props(p1, p2, p3, p4). */
  method AddThirdAndFourth(ps: Properties.Properties) returns (equal: bool)
    requires ps.Valid() && ps.group.elements == map["n1" := P1, "n2" := P2]
    modifies ps.group
    ensures ps.Valid() && ps.group.elements == AllFour && equal
  {
    ps.group.AddAll([P3, P4]);
    PutAllPair(map["n1" := P1, "n2" := P2], Properties.NameOf, Group.AdmitAll, P3, P4);
    var whole := PropsOfFour();
    equal := ps.group.Equals(whole.group);
  }

  /** props(p1, p2, p3, p4). */
  method PropsOfFour() returns (ps: Properties.Properties)
    ensures fresh(ps) && fresh(ps.group) && ps.Valid() && ps.group.elements == AllFour
  {
    ps := Properties.Properties.Props([P1, P2, P3, P4]);
    Group.PutAllAppend(map[], Properties.NameOf, Group.AdmitAll, [P1, P2], [P3, P4]);
    assert [P1, P2] + [P3, P4] == [P1, P2, P3, P4];
    PutAllPair(map[], Properties.NameOf, Group.AdmitAll, P1, P2);
    PutAllPair(map["n1" := P1, "n2" := P2], Properties.NameOf, Group.AdmitAll, P3, P4);
  }

  /** Removing n1 and n3 from the bag holding p1 to p4 leaves p2 and p4. */
  lemma KeepSecondAndFourth()
    ensures Group.Keep(AllFour, Group.ProtectNone, Group.NamesIn([P1, P3], Properties.NameOf)) ==
              map["n2" := P2, "n4" := P4]
  {
    NamesInPair(Properties.NameOf, P1, P3);
    var r := Group.Keep(AllFour, Group.ProtectNone, {"n1", "n3"});
    assert r.Keys == {"n2", "n4"} by {
      forall k | k in AllFour ensures k in r <==> k in {"n2", "n4"} {
        assert !Group.ProtectNone(k);
      }
    }
  }

  /** ps.remove(p1, p3) on the bag holding p1 to p4; the result equals props(p4, p2). */
  method RemoveFirstAndThird(ps: Properties.Properties) returns (equal: bool)
    requires ps.Valid() && ps.group.elements == AllFour
    modifies ps.group
    ensures ps.Valid() && ps.group.elements == map["n2" := P2, "n4" := P4] && equal
  {
    ps.group.RemoveElements([P1, P3]);
    KeepSecondAndFourth();
    var rest := PropsOfTwo(P4, P2);
    equal := ps.group.Equals(rest.group);
  }

  /** ps.remove(props(p2, p4)) on the bag holding p2 and p4 empties it. */
  method RemoveSecondAndFourth(ps: Properties.Properties) returns (empty: bool)
    requires ps.Valid() && ps.group.elements == map["n2" := P2, "n4" := P4]
    modifies ps.group
    ensures ps.Valid() && empty
  {
    var gone := PropsOfTwo(P2, P4);
    ghost var before := ps.group.elements;
    ps.group.RemoveGroup(gone.group);
    KeepNone(before, {"n2", "n4"});
    empty := ps.group.Empty();
  }

  /** props(p1, p2) built twice gives equal bags. */
  method PropsTwice() returns (equal: bool)
    ensures equal
  {
    var ps := PropsOfTwo(P1, P2);
    var qs := PropsOfTwo(P1, P2);
    equal := ps.group.Equals(qs.group);
  }

  /** PropertyTest.properties, with ps.propOr("bad", "default") read as getOr("bad", "default"). */
  method PropertiesScenario()
    returns (equalBags: bool, hasBoth: bool, hasBothNames: bool, hasBag: bool, hasThird: bool,
             fallback: P.Property, equalAfterAdd: bool, equalAfterRemove: bool, emptyLast: bool)
    ensures equalBags && hasBoth && hasBothNames && hasBag && !hasThird
    ensures fallback == P.PropOf("bad", P.Str("default"))
    ensures equalAfterAdd && equalAfterRemove && emptyLast
  {
    equalBags := PropsTwice();
    var ps := PropsOfTwo(P1, P2);
    var bag := PropsOfTwo(P1, P2);
    hasBoth, hasBothNames, hasBag, hasThird, fallback := PropertiesQueries(ps, bag);
    equalAfterAdd := AddThirdAndFourth(ps);
    equalAfterRemove := RemoveFirstAndThird(ps);
    emptyLast := RemoveSecondAndFourth(ps);
  }
}
