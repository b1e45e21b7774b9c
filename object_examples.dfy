/**
 * The expectations of the object utilities' test suite, replayed on the
 * model with the suite's own fixtures.
 */
module ObjectExamples {
  import opened Wrappers
  import opened Dotted
  import opened ObjectUtils

  /** The fixture of the `path` tests. */
  function PathFixture(): Json
  {
    Obj(map[
      "zero" := Null,
      "one" := Obj(map["two" := Num(2)]),
      "three" := Num(3),
      "arr" := Arr([
        Obj(map["name" := Str("Peter"), "" := Obj(map["x" := Str("y")])]),
        Obj(map["name" := Str("Hans"), "" := Str("secret")])
      ]),
      "" := Obj(map["" := Str("top secret")])
    ])
  }

  // Each test in two steps: the split of its literal path (Dotted.SplitTwo
  // for two segments), then the walk along the segments.

  lemma LookupOneTwo()
    ensures Lookup(PathFixture(), ["one", "two"], Undef) == Num(2)
  {
    var one := PathFixture().fields["one"];
    assert Child(PathFixture(), "one") == Some(one);
    assert Lookup(one, ["two"], Undef) == Num(2);
  }

  lemma PathFindsValue()
    ensures Path(PathFixture(), "one.two") == Num(2)
  {
    SplitTwo("one", "two");
    assert "one" + "." + "two" == "one.two";
    LookupOneTwo();
  }

  lemma LookupOneTwoo(default: Json)
    ensures Lookup(PathFixture(), ["one", "twoo"], default) == default
  {
    var one := PathFixture().fields["one"];
    assert Child(PathFixture(), "one") == Some(one);
    assert "twoo" !in one.fields;
    assert Lookup(one, ["twoo"], default) == default;
  }

  lemma PathMissingKeyGivesDefault()
    ensures Path(PathFixture(), "one.twoo", Num(666)) == Num(666)
    ensures Path(PathFixture(), "one.twoo") == Undef
  {
    SplitTwo("one", "twoo");
    assert "one" + "." + "twoo" == "one.twoo";
    LookupOneTwoo(Num(666));
    LookupOneTwoo(Undef);
  }

  lemma LookupZeroOne()
    ensures Lookup(PathFixture(), ["zero", "one"], Num(666)) == Num(666)
  {
    assert Child(PathFixture(), "zero") == Some(Null);
    assert Lookup(Null, ["one"], Num(666)) == Num(666);
  }

  lemma PathFalsyGivesDefault()
    ensures Path(PathFixture(), "zero.one", Num(666)) == Num(666)
  {
    SplitTwo("zero", "one");
    assert "zero" + "." + "one" == "zero.one";
    LookupZeroOne();
  }

  lemma SplitOneTwoThree()
    ensures Split("one.two.three") == ["one", "two", "three"]
  {
    var segs := ["one", "two", "three"];
    assert Join(segs) == "one.two.three" by {
      assert segs[1..] == ["two", "three"];
      assert Join(["two", "three"]) == "two.three";
    }
    SplitJoin(segs);
  }

  lemma LookupOneTwoThree()
    ensures Lookup(PathFixture(), ["one", "two", "three"], Num(666)) == Num(666)
  {
    var one := PathFixture().fields["one"];
    assert Child(PathFixture(), "one") == Some(one);
    assert Child(one, "two") == Some(Num(2));
    assert Lookup(Num(2), ["three"], Num(666)) == Num(666);
    assert ["two", "three"][1..] == ["three"];
    assert ["one", "two", "three"][1..] == ["two", "three"];
  }

  lemma PathNonObjectGivesDefault()
    ensures Path(PathFixture(), "one.two.three", Num(666)) == Num(666)
  {
    SplitOneTwoThree();
    LookupOneTwoThree();
  }

  /** 'arr.<d>.name' splits into three segments. */
  lemma SplitArrName(d: char)
    requires d == '0' || d == '1'
    ensures Split("arr." + [d] + ".name") == ["arr", [d], "name"]
  {
    var segs := ["arr", [d], "name"];
    assert Join(segs) == "arr." + [d] + ".name" by {
      assert segs[1..] == [[d], "name"];
      assert Join([[d], "name"]) == [d] + "." + "name";
    }
    SplitJoin(segs);
  }

  /** Element `d` of 'arr' has the given name. */
  lemma LookupArrName(d: char, name: Json)
    requires d == '0' || d == '1'
    requires name == if d == '0' then Str("Peter") else Str("Hans")
    ensures Lookup(PathFixture(), ["arr", [d], "name"], Undef) == name
  {
    SingleDigitIndex(d);
    var arr := PathFixture().fields["arr"];
    var element := arr.elems[d as int - '0' as int];
    assert Child(PathFixture(), "arr") == Some(arr);
    assert Child(arr, [d]) == Some(element);
    assert Lookup(element, ["name"], Undef) == name;
    assert [[d], "name"][1..] == ["name"];
    assert ["arr", [d], "name"][1..] == [[d], "name"];
  }

  lemma PathThroughArray()
    ensures Path(PathFixture(), "arr.0.name") == Str("Peter")
  {
    SplitArrName('0');
    assert "arr." + ['0'] + ".name" == "arr.0.name";
    LookupArrName('0', Str("Peter"));
  }

  lemma PathThroughArraySecond()
    ensures Path(PathFixture(), "arr.1.name") == Str("Hans")
  {
    SplitArrName('1');
    assert "arr." + ['1'] + ".name" == "arr.1.name";
    LookupArrName('1', Str("Hans"));
  }

  lemma PathAbortsAtEmptySegment()
    ensures Path(PathFixture(), "") == PathFixture()
    ensures Path(PathFixture(), ".") == PathFixture()
    ensures Path(PathFixture(), "zero.") == Path(PathFixture(), "zero")
    ensures Path(PathFixture(), "one..") == Path(PathFixture(), "one")
  {
    PathOfEmpty(PathFixture(), Undef);
    assert "zero." == "zero" + "." + "";
    PathIgnoresAfterEmpty(PathFixture(), "zero", "", Undef);
    assert "one.." == "one" + "." + ".";
    PathIgnoresAfterEmpty(PathFixture(), "one", ".", Undef);
  }

  /** The fixture of the `setPath` tests. */
  function SetPathFixture(): Json
  {
    Obj(map[
      "listOfStrings" := Arr([Str("A"), Str("B"), Str("C")]),
      "level1" := Obj(map["value" := Str("ABC"), "level2" := Obj(map["value" := Str("DEF")])])
    ])
  }

  /** `[null, ..., null, {value: v}]` with `d` nulls: what 'd.value' writes into a new array. */
  lemma AssignIndexThenValue(d: char, v: Json)
    requires IsDigit(d)
    ensures Assign(Arr([]), [[d], "value"], v) ==
      Ok(Arr(Nulls(d as int - '0' as int) + [Obj(map["value" := v])]))
  {
    SingleDigitIndex(d);
    assert !IsIndex("value");
    var leaf := Obj(map["value" := v]);
    assert Assign(Obj(map[]), ["value"], v) == Ok(leaf);
    AssignIntoMissing(Arr([]), [d], ["value"], v, leaf);
    assert [] + Nulls(d as int - '0' as int) + [leaf] == Nulls(d as int - '0' as int) + [leaf];
  }

  /** One level of `setPath` through a missing intermediate: a fresh container is filled and stored. */
  lemma AssignIntoMissing(node: Json, key: string, rest: seq<string>, v: Json, inner: Json)
    requires |rest| >= 1
    requires Child(node, key).None?
    requires Assign(EmptyFor(rest[0]), rest, v) == Ok(inner)
    ensures Assign(node, [key] + rest, v) == Put(node, key, inner)
  {
    assert ([key] + rest)[1..] == rest;
  }

  lemma AssignListOfStrings5()
    ensures Assign(SetPathFixture(), ["listOfStrings", "5"], Str("Y")) ==
      Ok(Obj(SetPathFixture().fields["listOfStrings" := Arr([Str("A"), Str("B"), Str("C"), Null, Null, Str("Y")])]))
  {
    SingleDigitIndex('5');
    var list := [Str("A"), Str("B"), Str("C")];
    var padded := Arr(list + Nulls(2) + [Str("Y")]);
    assert padded == Arr([Str("A"), Str("B"), Str("C"), Null, Null, Str("Y")]);
    assert Put(Arr(list), "5", Str("Y")) == Ok(padded);
    assert ["listOfStrings", "5"][1..] == ["5"];
  }

  /** 'listOfStrings.5' pads slots 3 and 4 with `null` and puts 'Y' in slot 5. */
  lemma SetPathPadsArray()
    ensures SetPath(SetPathFixture(), "listOfStrings.5", Str("Y")) ==
      Ok(Obj(SetPathFixture().fields["listOfStrings" := Arr([Str("A"), Str("B"), Str("C"), Null, Null, Str("Y")])]))
  {
    SplitTwo("listOfStrings", "5");
    assert "listOfStrings" + "." + "5" == "listOfStrings.5";
    AssignListOfStrings5();
  }

  /** The join of five segments, written out. */
  lemma JoinFive(a: string, b: string, c: string, d: string, e: string)
    ensures Join([a, b, c, d, e]) == a + "." + (b + "." + (c + "." + (d + "." + e)))
  {
    assert [d, e][1..] == [e];
    assert Join([d, e]) == d + "." + e;
    assert [c, d, e][1..] == [d, e];
    assert Join([c, d, e]) == c + "." + Join([d, e]);
    assert [b, c, d, e][1..] == [c, d, e];
    assert Join([b, c, d, e]) == b + "." + Join([c, d, e]);
    assert [a, b, c, d, e][1..] == [b, c, d, e];
  }

  lemma SplitListsObjects()
    ensures Split("lists.0.objects.4.value") == ["lists", "0", "objects", "4", "value"]
  {
    var segs := ["lists", "0", "objects", "4", "value"];
    JoinFive("lists", "0", "objects", "4", "value");
    assert "lists" + "." + ("0" + "." + ("objects" + "." + ("4" + "." + "value"))) == "lists.0.objects.4.value";
    SplitJoin(segs);
  }

  /** The value 'lists.0.objects.4.value' := 'B' creates under 'lists'. */
  function CreatedLists(): Json
  {
    Arr([CreatedElement()])
  }

  /** The element created at index 0 of 'lists'. */
  function CreatedElement(): Json
  {
    Obj(map["objects" := Arr([Null, Null, Null, Null, Obj(map["value" := Str("B")])])])
  }

  lemma AssignObjectsLevel()
    ensures Assign(Obj(map[]), ["objects", "4", "value"], Str("B")) == Ok(CreatedElement())
  {
    AssignIndexThenValue('4', Str("B"));
    var objects := Arr(Nulls(4) + [Obj(map["value" := Str("B")])]);
    assert objects == Arr([Null, Null, Null, Null, Obj(map["value" := Str("B")])]);
    AssignIntoMissing(Obj(map[]), "objects", ["4", "value"], Str("B"), objects);
    assert ["objects"] + ["4", "value"] == ["objects", "4", "value"];
  }

  lemma AssignZeroLevel()
    ensures Assign(Arr([]), ["0", "objects", "4", "value"], Str("B")) == Ok(CreatedLists())
  {
    SingleDigitIndex('0');
    AssignObjectsLevel();
    AssignIntoMissing(Arr([]), "0", ["objects", "4", "value"], Str("B"), CreatedElement());
    assert ["0"] + ["objects", "4", "value"] == ["0", "objects", "4", "value"];
    assert [] + Nulls(0) + [CreatedElement()] == [CreatedElement()];
  }

  lemma AssignListsObjects()
    ensures Assign(SetPathFixture(), ["lists", "0", "objects", "4", "value"], Str("B")) ==
      Ok(Obj(SetPathFixture().fields["lists" := CreatedLists()]))
  {
    SingleDigitIndex('0');
    AssignZeroLevel();
    AssignIntoMissing(SetPathFixture(), "lists", ["0", "objects", "4", "value"], Str("B"), CreatedLists());
    assert ["lists"] + ["0", "objects", "4", "value"] == ["lists", "0", "objects", "4", "value"];
  }

  /** 'lists.0.objects.4.value' creates a one-element list whose element holds a five-slot array. */
  lemma SetPathCreatesContainers()
    ensures SetPath(SetPathFixture(), "lists.0.objects.4.value", Str("B")) ==
      Ok(Obj(SetPathFixture().fields["lists" := CreatedLists()]))
    ensures |CreatedLists().elems| == 1 && |CreatedLists().elems[0].fields["objects"].elems| == 5
  {
    SplitListsObjects();
    AssignListsObjects();
  }

  // The three steps of the empty-segment test, applied one after the other.

  function AfterEmptyPath(): Json
  {
    Obj(SetPathFixture().fields["" := Str("Y")])
  }

  /** What 'lists.0..4.value' := 'Z' creates under 'lists'. */
  function EmptySegmentLists(): Json
  {
    Arr([EmptySegmentElement()])
  }

  function AfterEmptySegment(): Json
  {
    Obj(AfterEmptyPath().fields["lists" := EmptySegmentLists()])
  }

  lemma SplitListsEmpty()
    ensures Split("lists.0..4.value") == ["lists", "0", "", "4", "value"]
  {
    var segs := ["lists", "0", "", "4", "value"];
    JoinFive("lists", "0", "", "4", "value");
    assert "lists" + "." + ("0" + "." + ("" + "." + ("4" + "." + "value"))) == "lists.0..4.value";
    SplitJoin(segs);
  }

  /** The element created at index 0 of 'lists' by 'lists.0..4.value'. */
  function EmptySegmentElement(): Json
  {
    Obj(map["" := Arr([Null, Null, Null, Null, Obj(map["value" := Str("Z")])])])
  }

  lemma AssignEmptyKeyLevel()
    ensures Assign(Obj(map[]), ["", "4", "value"], Str("Z")) == Ok(EmptySegmentElement())
  {
    AssignIndexThenValue('4', Str("Z"));
    var nested := Arr(Nulls(4) + [Obj(map["value" := Str("Z")])]);
    assert nested == Arr([Null, Null, Null, Null, Obj(map["value" := Str("Z")])]);
    AssignIntoMissing(Obj(map[]), "", ["4", "value"], Str("Z"), nested);
    assert [""] + ["4", "value"] == ["", "4", "value"];
  }

  lemma AssignEmptyZeroLevel()
    ensures Assign(Arr([]), ["0", "", "4", "value"], Str("Z")) == Ok(EmptySegmentLists())
  {
    SingleDigitIndex('0');
    assert !IsIndex("");
    AssignEmptyKeyLevel();
    AssignIntoMissing(Arr([]), "0", ["", "4", "value"], Str("Z"), EmptySegmentElement());
    assert ["0"] + ["", "4", "value"] == ["0", "", "4", "value"];
    assert [] + Nulls(0) + [EmptySegmentElement()] == [EmptySegmentElement()];
  }

  lemma AssignListsEmpty()
    ensures Assign(AfterEmptyPath(), ["lists", "0", "", "4", "value"], Str("Z")) == Ok(AfterEmptySegment())
  {
    SingleDigitIndex('0');
    AssignEmptyZeroLevel();
    AssignIntoMissing(AfterEmptyPath(), "lists", ["0", "", "4", "value"], Str("Z"), EmptySegmentLists());
    assert ["lists"] + ["0", "", "4", "value"] == ["lists", "0", "", "4", "value"];
  }

  lemma SetPathDotPath(obj: Json)
    requires obj.Obj? && "" in obj.fields && !IsContainer(obj.fields[""])
    ensures SetPath(obj, ".", Str("Y")) == Ok(Obj(obj.fields["" := Obj(map["" := Str("Y")])]))
  {
    assert Split(".") == ["", ""] by { assert "."[1..] == ""; }
    assert ["", ""][1..] == [""];
    assert Assign(Obj(map[]), [""], Str("Y")) == Ok(Obj(map["" := Str("Y")]));
  }

  lemma LookupListsZero()
    ensures Lookup(AfterEmptySegment(), ["lists", "0"], Undef) == EmptySegmentElement()
  {
    SingleDigitIndex('0');
    assert Child(AfterEmptySegment(), "lists") == Some(EmptySegmentLists());
    assert Child(EmptySegmentLists(), "0") == Some(EmptySegmentElement());
    assert ["lists", "0"][1..] == ["0"];
    assert ["0"][1..] == [];
  }

  lemma PathListsZero()
    ensures Path(AfterEmptySegment(), "lists.0") == EmptySegmentElement()
  {
    SplitTwo("lists", "0");
    assert "lists" + "." + "0" == "lists.0";
    LookupListsZero();
  }

  /**
   * An empty segment is the key '': '' writes obj[''], 'lists.0..4.value'
   * nests an array under the key '', and '.' replaces the string at obj['']
   * by an object { '': 'Y' }.
   */
  lemma SetPathEmptySegments()
    ensures SetPath(SetPathFixture(), "", Str("Y")) == Ok(AfterEmptyPath())
    ensures SetPath(AfterEmptyPath(), "lists.0..4.value", Str("Z")) == Ok(AfterEmptySegment())
    ensures Path(AfterEmptySegment(), "lists.0") == EmptySegmentElement()
    ensures SetPath(AfterEmptySegment(), ".", Str("Y")).Ok?
    ensures SetPath(AfterEmptySegment(), ".", Str("Y")).value.fields[""] == Obj(map["" := Str("Y")])
  {
    SetPathEmptyKey(SetPathFixture().fields, Str("Y"));
    SetPathListsEmpty();
    PathListsZero();
    SetPathDotAfterEmptySegment();
  }

  lemma SetPathListsEmpty()
    ensures SetPath(AfterEmptyPath(), "lists.0..4.value", Str("Z")) == Ok(AfterEmptySegment())
  {
    SplitListsEmpty();
    AssignListsEmpty();
  }

  lemma SetPathDotAfterEmptySegment()
    ensures SetPath(AfterEmptySegment(), ".", Str("Y")) ==
      Ok(Obj(AfterEmptySegment().fields["" := Obj(map["" := Str("Y")])]))
  {
    var f := SetPathFixture().fields["" := Str("Y")];
    assert AfterEmptySegment().fields == f["lists" := EmptySegmentLists()];
    assert AfterEmptySegment().fields[""] == Str("Y");
    SetPathDotPath(AfterEmptySegment());
  }

  /** The fixture of the `options` tests. */
  function OptionDefaults(): Json
  {
    Obj(map["pollingMillis" := Num(100), "pollingTimeout" := Num(1000)])
  }

  /**
   * Missing options are filled from the defaults, and `null` or `undefined`
   * options give the defaults. The options passed in are values here, so
   * `options` cannot modify them: that expectation holds by construction.
   */
  lemma OptionsFillsDefaults()
    ensures Options(Obj(map["pollingMillis" := Num(200)]), OptionDefaults()) ==
      Obj(map["pollingMillis" := Num(200), "pollingTimeout" := Num(1000)])
    ensures Options(Null, OptionDefaults()) == OptionDefaults()
    ensures Options(Undef, OptionDefaults()) == OptionDefaults()
  {
    var r := Options(Obj(map["pollingMillis" := Num(200)]), OptionDefaults());
    var expected := map["pollingMillis" := Num(200), "pollingTimeout" := Num(1000)];
    assert r.fields.Keys == expected.Keys;
  }

  /** The fixture of the `deepClone` tests. */
  function CloneFixture(): Json
  {
    Obj(map[
      "wife" := Obj(map["name" := Str("Gisela"), "age" := Num(65)]),
      "car" := Obj(map["manufacturer" := Str("Mercedes"), "color" := Str("grey")]),
      "pets" := Arr([Str("dog"), Str("cat")]),
      "aNullValue" := Null,
      "anUndefinedValue" := Undef
    ])
  }

  /**
   * The changes the test makes to the clone: `clone.wife.name = 'Henrietta'`,
   * `clone.pets.push('mouse')`, then `clone.pets[0] = 'tiger'`.
   */
  function ChangeClone(clone: Json): (r: Json)
    requires clone.Obj? && "wife" in clone.fields && "pets" in clone.fields
    requires clone.fields["wife"].Obj? && clone.fields["pets"].Arr?
  {
    var wife := clone.fields["wife"];
    var pets := clone.fields["pets"].elems + [Str("mouse")];
    Obj(clone.fields["wife" := Obj(wife.fields["name" := Str("Henrietta")])]["pets" := Arr(pets[0 := Str("tiger")])])
  }

  /**
   * The clone takes the changes while the original keeps `wife.name` 'Gisela'
   * and `pets` ['dog', 'cat']; `null` and `undefined` are cloned as they are.
   * The fixture is a value, so the original's independence from the clone
   * holds by construction: the last two clauses hold whatever DeepClone does.
   */
  lemma DeepCloneIsIndependent()
    ensures DeepClone(CloneFixture()).fields["aNullValue"] == Null
    ensures DeepClone(CloneFixture()).fields["anUndefinedValue"] == Undef
    ensures var changed := ChangeClone(DeepClone(CloneFixture()));
      && changed.fields["wife"].fields["name"] == Str("Henrietta")
      && changed.fields["pets"] == Arr([Str("tiger"), Str("cat"), Str("mouse")])
    ensures CloneFixture().fields["wife"].fields["name"] == Str("Gisela")
    ensures CloneFixture().fields["pets"] == Arr([Str("dog"), Str("cat")])
  {
    assert [Str("dog"), Str("cat")] + [Str("mouse")] == [Str("dog"), Str("cat"), Str("mouse")];
  }

  /** The object of the first `forEach` test. */
  function ForEachObject(): Json
  {
    Obj(map["one" := Str("eins"), "two" := Str("zwei"), "three" := Num(3)])
  }

  /** The array of the second `forEach` test. */
  function ForEachArray(): Json
  {
    Arr([Str("eins"), Str("zwei"), Num(3)])
  }

  /** `forEach` on the test object calls the iterator with every entry. */
  method ForEachCallsEveryEntry() returns (calls: seq<Call>)
    ensures Call(Str("eins"), Name("one"), ForEachObject()) in calls
    ensures Call(Str("zwei"), Name("two"), ForEachObject()) in calls
    ensures Call(Num(3), Name("three"), ForEachObject()) in calls
  {
    calls := ForEach(ForEachObject());
    EntryCallsInclude(ForEachObject(), calls, "one");
    EntryCallsInclude(ForEachObject(), calls, "two");
    EntryCallsInclude(ForEachObject(), calls, "three");
  }

  /** `forEach` on the test array calls the iterator with every element and its index, in order. */
  method ForEachCallsEveryElement() returns (calls: seq<Call>)
    ensures calls == [Call(Str("eins"), Index(0), ForEachArray()),
                      Call(Str("zwei"), Index(1), ForEachArray()),
                      Call(Num(3), Index(2), ForEachArray())]
  {
    calls := ForEach(ForEachArray());
  }
}
