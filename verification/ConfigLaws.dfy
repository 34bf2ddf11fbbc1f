// The compiled schema, read by the rules of JSON Schema draft 2020-12, and the loader
// demand the same things of a config.
module ConfigLaws {
  import opened Json
  import opened Wrappers
  import opened ConfigSchema

  // ---- JSON Schema, for the keywords the compiler emits ----

  // Instance equality (Core, section 4.2.2): numbers by value, booleans apart from numbers.
  predicate SchemaEq(a: Value, b: Value) {
    match (a, b)
    case (Number(x), Number(y)) => AsReal(x) == AsReal(y)
    case (Arr(x), Arr(y)) => |x| == |y| && forall i | 0 <= i < |x| :: SchemaEq(x[i], y[i])
    case (Obj(x), Obj(y)) => x.Keys == y.Keys && forall k | k in x && k in y :: SchemaEq(x[k], y[k])
    case _ => a == b
  }

  lemma {:induction false} SchemaEqReflexive(a: Value)
    ensures SchemaEq(a, a)
  {
    match a
    case Arr(x) =>
      forall i | 0 <= i < |x| ensures SchemaEq(x[i], x[i]) {
        SchemaEqReflexive(x[i]);
      }
    case Obj(x) =>
      forall k | k in x ensures SchemaEq(x[k], x[k]) {
        SchemaEqReflexive(x[k]);
      }
    case _ =>
  }

  // const and enum (Validation, 6.1.3 and 6.1.2), required (6.5.3), properties (Core,
  // 10.3.2.1), allOf (10.2.1.1), if/then (10.2.2). Other keywords are not read.
  predicate Valid(schema: Value, inst: Value) {
    schema.Obj? ==>
      var m := schema.m;
      && ("const" in m ==> SchemaEq(inst, m["const"]))
      && ("enum" in m && m["enum"].Arr? ==> exists i | 0 <= i < |m["enum"].a| :: SchemaEq(inst, m["enum"].a[i]))
      && ("required" in m && inst.Obj? ==> HasAll(inst, m["required"]))
      && ("properties" in m && m["properties"].Obj? && inst.Obj? ==>
            forall k | k in m["properties"].m && k in inst.m :: Valid(m["properties"].m[k], inst.m[k]))
      && ("allOf" in m && m["allOf"].Arr? ==> forall i | 0 <= i < |m["allOf"].a| :: Valid(m["allOf"].a[i], inst))
      && ("if" in m && "then" in m && Valid(m["if"], inst) ==> Valid(m["then"], inst))
  }

  predicate HasAll(inst: Value, names: Value)
    requires inst.Obj?
  {
    names.Arr? ==> forall n | n in names.a :: n.Str? ==> n.s in inst.m
  }

  // ---- conditions ----

  // An `In` condition carries a list.
  predicate WellTyped(c: Condition) {
    c.comparator == In ==> c.value.Arr?
  }

  // As `Matches`, but by JSON Schema's equality.
  predicate SchemaMatches(c: Condition, actual: Value)
    requires WellTyped(c)
  {
    match c.comparator
    case Equal => SchemaEq(actual, c.value)
    case In => exists i | 0 <= i < |c.value.a| :: SchemaEq(actual, c.value.a[i])
  }

  // The config gives the controller a value the condition lists with its numbers
  // written another way, as 1.0 for 1.
  predicate OnlyNumerically(c: Condition, data: Value)
    requires WellTyped(c)
  {
    var given := Get(data, c.element);
    given.Some? && SchemaMatches(c, given.value) && !Matches(c, given)
  }

  // Such configs exist: 1.0 for a condition on 1, or the other way round.
  lemma NumericMismatch(name: string, i: int)
    ensures OnlyNumerically(Condition(name, Equal, Number(Int(i))), Single(name, Number(Float(i as real))))
    ensures OnlyNumerically(Condition(name, In, Arr([Number(Float(i as real))])), Single(name, Number(Int(i))))
  {
    var c, data := Condition(name, In, Arr([Number(Float(i as real))])), Single(name, Number(Int(i)));
    assert SchemaEq(data.m[name], c.value.a[0]);
  }

  lemma MatchImpliesSchemaMatch(c: Condition, actual: Value)
    requires WellTyped(c) && Matches(c, Some(actual))
    ensures SchemaMatches(c, actual)
  {
    SchemaEqReflexive(actual);
  }

  lemma TestMeansSchemaMatch(c: Condition, actual: Value)
    requires WellTyped(c)
    ensures Valid(ToTest(c), actual) <==> SchemaMatches(c, actual)
  {
  }

  // Whether a branch applies to a config.
  predicate Shown(c: Condition, data: Value, elements: seq<Element>)
    requires WellTyped(c)
  {
    var given := Get(data, c.element);
    if given.Some? then SchemaMatches(c, given.value) else Matches(c, DefaultOf(elements, c.element))
  }

  lemma IfMeansShown(c: Condition, data: Value, elements: seq<Element>)
    requires WellTyped(c) && data.Obj?
    ensures Valid(IfSchema(c, elements), data) <==> Shown(c, data, elements)
  {
    var m := IfSchema(c, elements).m;
    var properties := m["properties"].m;
    assert properties == map[c.element := ToTest(c)];
    if c.element in data.m {
      TestMeansSchemaMatch(c, data.m[c.element]);
      assert Valid(properties[c.element], data.m[c.element]) <==> SchemaMatches(c, data.m[c.element]);
    }
    if "required" in m {
      assert HasAll(data, m["required"]) <==> c.element in data.m by {
        assert Str(c.element) in m["required"].a;
      }
    }
  }

  /** Each `if` accepts a config exactly when the condition holds for it, unless the
      controller matches only numerically. */
  lemma IfAgreesExactly(el: Element, data: Value, elements: seq<Element>)
    requires el.showIf.Some? && WellTyped(el.showIf.value) && data.Obj?
    ensures (Valid(IfSchema(el.showIf.value, elements), data) <==> ConditionHolds(el, data, elements))
            <==> !OnlyNumerically(el.showIf.value, data)
  {
    var c := el.showIf.value;
    IfMeansShown(c, data, elements);
    if c.element in data.m && Matches(c, Some(data.m[c.element])) {
      MatchImpliesSchemaMatch(c, data.m[c.element]);
    }
  }

  // ---- what the compiler collects ----

  predicate DistinctNames(elements: seq<Element>) {
    forall i, j | 0 <= i < j < |elements| :: elements[i].name != elements[j].name
  }

  predicate Unconditional(elements: seq<Element>, k: string, v: Value) {
    exists el | el in elements :: el.showIf.None? && el.name == k && el.json == v
  }

  ghost predicate MembersAre(g: Group, elements: seq<Element>) {
    forall el :: el in g.members <==> el in elements && el.showIf == Some(g.condition)
  }

  // Groups hold the conditional elements, one group a condition.
  ghost predicate Grouped(groups: seq<Group>, elements: seq<Element>) {
    && (forall i, j | 0 <= i < j < |groups| :: groups[i].condition != groups[j].condition)
    && (forall g | g in groups :: MembersAre(g, elements))
    && (forall el | el in elements && el.showIf.Some? :: exists g | g in groups :: g.condition == el.showIf.value)
    && (forall g | g in groups :: g.members != [] && DistinctNames(g.members))
  }

  lemma {:induction false} CollectGroups(elements: seq<Element>)
    requires DistinctNames(elements)
    ensures Grouped(Collect(elements).groups, elements)
  {
    if elements != [] {
      var n := |elements| - 1;
      var rest, el := elements[..n], elements[n];
      CollectGroups(rest);
      assert elements == rest + [el];
      assert forall e | e in rest :: e.name != el.name;
      var groups := Collect(rest).groups;
      if el.showIf.Some? {
        AddMemberGroups(groups, rest, el);
      } else {
        forall g | g in groups ensures MembersAre(g, elements) {
          assert MembersAre(g, rest);
        }
      }
    }
  }

  lemma AddMemberGroups(groups: seq<Group>, rest: seq<Element>, el: Element)
    requires Grouped(groups, rest) && el.showIf.Some? && forall e | e in rest :: e.name != el.name
    ensures Grouped(AddMember(groups, el.showIf.value, el), rest + [el])
  {
    var c, elements := el.showIf.value, rest + [el];
    var next := AddMember(groups, c, el);
    var at := GroupIndex(groups, c);
    var i := at.GetOr(|groups|);
    assert next[i].condition == c && next[i] in next;
    forall j | 0 <= j < |next|
      ensures MembersAre(next[j], elements)
      ensures next[j].members != [] && DistinctNames(next[j].members)
    {
      if j < |groups| {
        assert groups[j] in groups && MembersAre(groups[j], rest);
      }
      if j == i && at.Some? {
        assert next[j].members == groups[j].members + [el];
        assert forall e | e in groups[j].members :: e in rest;
      }
    }
    forall e | e in elements && e.showIf.Some? ensures exists g | g in next :: g.condition == e.showIf.value {
      if e in rest && e.showIf.value != c {
        var j :| 0 <= j < |groups| && groups[j].condition == e.showIf.value;
        assert next[j] in next;
      }
    }
  }

  lemma {:induction false} CollectPlain(elements: seq<Element>)
    requires DistinctNames(elements)
    ensures forall k, v :: k in Collect(elements).properties && Collect(elements).properties[k] == v <==>
            Unconditional(elements, k, v)
    ensures forall v :: v in Collect(elements).required <==>
              exists el | el in elements :: el.showIf.None? && IsRequired(el) && v == Str(el.name)
  {
    if elements != [] {
      var n := |elements| - 1;
      CollectPlain(elements[..n]);
      assert elements == elements[..n] + [elements[n]];
      forall k, v
        ensures Unconditional(elements, k, v) <==>
                Unconditional(elements[..n], k, v) ||
                (elements[n].showIf.None? && elements[n].name == k && elements[n].json == v)
      {
      }
      forall k, v | Unconditional(elements[..n], k, v) ensures k != elements[n].name {
      }
    }
  }

  lemma {:induction false} MembersCollected(members: seq<Element>)
    requires DistinctNames(members)
    ensures forall k :: k in PropertiesOf(members) <==> exists el | el in members :: el.name == k
    ensures forall el | el in members :: PropertiesOf(members)[el.name] == el.json
    ensures forall v :: v in RequiredOf(members) <==> exists el | el in members :: IsRequired(el) && v == Str(el.name)
  {
    if members != [] {
      var n := |members| - 1;
      MembersCollected(members[..n]);
      assert members == members[..n] + [members[n]];
    }
  }

  // ---- what the emitted schema asks of a config ----

  // A present key is valid, and a required one is present.
  predicate Fulfilled(el: Element, data: Value)
    requires data.Obj?
  {
    (el.name in data.m ==> Valid(el.json, data.m[el.name])) && (IsRequired(el) ==> el.name in data.m)
  }

  predicate Active(el: Element, data: Value, elements: seq<Element>)
    requires el.showIf.Some? ==> WellTyped(el.showIf.value)
  {
    el.showIf.Some? ==> Shown(el.showIf.value, data, elements)
  }

  predicate AllTyped(elements: seq<Element>) {
    forall el | el in elements :: el.showIf.Some? ==> WellTyped(el.showIf.value)
  }

  lemma ThenMeansMembers(members: seq<Element>, data: Value)
    requires DistinctNames(members) && data.Obj?
    ensures Valid(ThenSchema(members), data) <==> forall el | el in members :: Fulfilled(el, data)
  {
    var properties := PropertiesOf(members);
    MembersCollected(members);
    MembersRequired(members, data);
    var m := ThenSchema(members).m;
    assert m["properties"] == Obj(properties);
    assert Valid(ThenSchema(members), data) <==>
           HasAll(data, Arr(RequiredOf(members))) &&
           forall k | k in properties && k in data.m :: Valid(properties[k], data.m[k]);
  }

  lemma MembersRequired(members: seq<Element>, data: Value)
    requires DistinctNames(members) && data.Obj?
    ensures HasAll(data, Arr(RequiredOf(members))) <==> forall el | el in members && IsRequired(el) :: el.name in data.m
  {
    MembersCollected(members);
    if HasAll(data, Arr(RequiredOf(members))) {
      forall el | el in members && IsRequired(el) ensures el.name in data.m {
        assert Str(el.name) in RequiredOf(members);
      }
    }
  }

  /** The emitted schema accepts a config exactly when every active element is fulfilled. */
  lemma SchemaMeansElements(elements: seq<Element>, data: Value)
    requires Build(elements).Some? && DistinctNames(elements) && AllTyped(elements) && data.Obj?
    ensures Valid(Emit(Build(elements).value), data) <==>
            forall el | el in elements :: Active(el, data, elements) ==> Fulfilled(el, data)
  {
    var p := Collect(elements);
    var o := Build(elements).value;
    CollectGroups(elements);
    PlainMeans(elements, data);
    EmitMeans(o, p, data);
    forall i | 0 <= i < |p.groups| ensures Valid(o.allOf[i], data) <==> GroupFulfilled(p.groups[i], elements, data) {
      assert MembersAre(p.groups[i], elements) && p.groups[i].members[0] in elements;
      BranchMeans(p.groups[i], elements, data);
    }
    if Valid(Emit(o), data) {
      forall el | el in elements && el.showIf.Some? && Active(el, data, elements) ensures Fulfilled(el, data) {
        var i :| 0 <= i < |p.groups| && p.groups[i].condition == el.showIf.value;
        assert GroupFulfilled(p.groups[i], elements, data);
      }
    } else if PlainAccepts(p, data) {
      var i :| 0 <= i < |o.allOf| && !Valid(o.allOf[i], data);
      assert !GroupFulfilled(p.groups[i], elements, data);
    }
  }

  predicate GroupFulfilled(g: Group, elements: seq<Element>, data: Value)
    requires AllTyped(elements) && data.Obj?
  {
    forall el | el in elements && el.showIf == Some(g.condition) :: Active(el, data, elements) ==> Fulfilled(el, data)
  }

  lemma EmitMeans(o: ObjectSchema, p: Partial, data: Value)
    requires data.Obj? && o.properties == p.properties && o.required == p.required
    ensures Valid(Emit(o), data) <==> PlainAccepts(p, data) && forall i | 0 <= i < |o.allOf| :: Valid(o.allOf[i], data)
  {
    var m := Emit(o).m;
    assert m["properties"] == Obj(o.properties) && m["required"] == Arr(o.required);
  }

  predicate PlainAccepts(p: Partial, data: Value)
    requires data.Obj?
  {
    (forall k | k in p.properties && k in data.m :: Valid(p.properties[k], data.m[k])) && HasAll(data, Arr(p.required))
  }

  lemma PlainMeans(elements: seq<Element>, data: Value)
    requires DistinctNames(elements) && data.Obj?
    ensures PlainAccepts(Collect(elements), data) <==>
            forall el | el in elements && el.showIf.None? :: Fulfilled(el, data)
  {
    var p := Collect(elements);
    CollectPlain(elements);
    forall el | el in elements && el.showIf.None?
      ensures el.name in p.properties && p.properties[el.name] == el.json
      ensures IsRequired(el) <==> Str(el.name) in p.required
    {
      assert Unconditional(elements, el.name, el.json);
      if Str(el.name) in p.required {
        var e :| e in elements && e.showIf.None? && IsRequired(e) && Str(el.name) == Str(e.name);
        var i :| 0 <= i < |elements| && elements[i] == e;
        var j :| 0 <= j < |elements| && elements[j] == el;
      }
    }
    if forall el | el in elements && el.showIf.None? :: Fulfilled(el, data) {
      forall k | k in p.properties && k in data.m ensures Valid(p.properties[k], data.m[k]) {
        assert Unconditional(elements, k, p.properties[k]);
      }
    }
  }

  lemma BranchMeans(g: Group, elements: seq<Element>, data: Value)
    requires AllTyped(elements) && WellTyped(g.condition) && DistinctNames(g.members) && data.Obj?
    requires MembersAre(g, elements)
    ensures Valid(Branch(g, elements), data) <==> GroupFulfilled(g, elements, data)
  {
    IfMeansShown(g.condition, data, elements);
    ThenMeansMembers(g.members, data);
    GroupMeans(g, elements, data);
    IfThenMeans(IfSchema(g.condition, elements), ThenSchema(g.members), data);
  }

  lemma IfThenMeans(if_: Value, then_: Value, data: Value)
    ensures Valid(Obj(map["if" := if_, "then" := then_]), data) <==> (Valid(if_, data) ==> Valid(then_, data))
  {
    var m := map["if" := if_, "then" := then_];
    assert m["if"] == if_ && m["then"] == then_;
  }

  lemma GroupMeans(g: Group, elements: seq<Element>, data: Value)
    requires AllTyped(elements) && WellTyped(g.condition) && data.Obj? && MembersAre(g, elements)
    ensures GroupFulfilled(g, elements, data) <==>
            (Shown(g.condition, data, elements) ==> forall el | el in g.members :: Fulfilled(el, data))
  {
  }

  // ---- where each element ends up ----

  // The properties of the i-th `then` branch.
  function ThenProperties(groups: seq<Group>, i: nat): map<string, Value>
    requires i < |groups|
  {
    PropertiesOf(groups[i].members)
  }

  /** Every element is declared once: an unconditional one among the properties, a
      conditional one in exactly one `then` branch, whose `if` is its own condition. */
  lemma EachElementHasOnePlace(elements: seq<Element>, el: Element)
    requires DistinctNames(elements) && el in elements
    ensures var p := Collect(elements);
      && (el.name in p.properties <==> el.showIf.None?)
      && (el.showIf.None? ==> p.properties[el.name] == el.json)
      && (forall i: nat | i < |p.groups| ::
            el.name in ThenProperties(p.groups, i) <==> el.showIf == Some(p.groups[i].condition))
      && (forall i: nat | i < |p.groups| && el.showIf == Some(p.groups[i].condition) ::
            ThenProperties(p.groups, i)[el.name] == el.json)
      && (el.showIf.Some? ==> exists i: nat | i < |p.groups| :: el.name in ThenProperties(p.groups, i))
      && (forall i: nat, j: nat | i < |p.groups| && j < |p.groups| ::
            el.name in ThenProperties(p.groups, i) && el.name in ThenProperties(p.groups, j) ==> i == j)
  {
    var p := Collect(elements);
    CollectGroups(elements);
    CollectPlain(elements);
    NamesAreUnique(elements, el);
    if el.showIf.None? {
      assert Unconditional(elements, el.name, el.json);
    }
    if el.name in p.properties {
      assert Unconditional(elements, el.name, p.properties[el.name]);
    }
    forall i: nat | i < |p.groups|
      ensures el.name in ThenProperties(p.groups, i) <==> el.showIf == Some(p.groups[i].condition)
      ensures el.showIf == Some(p.groups[i].condition) ==> ThenProperties(p.groups, i)[el.name] == el.json
    {
      assert MembersAre(p.groups[i], elements);
      MembersCollected(p.groups[i].members);
    }
  }

  lemma NamesAreUnique(elements: seq<Element>, el: Element)
    requires DistinctNames(elements) && el in elements
    ensures forall e | e in elements && e.name == el.name :: e == el
  {
    forall e | e in elements && e.name == el.name ensures e == el {
      var i :| 0 <= i < |elements| && elements[i] == e;
      var j :| 0 <= j < |elements| && elements[j] == el;
    }
  }

  // ---- the loader ----

  // The schema requires `name` of this config: outright, or in a branch that applies.
  predicate DemandedBySchema(elements: seq<Element>, name: string, data: Value) {
    var p := Collect(elements);
    Str(name) in p.required ||
    exists i | 0 <= i < |p.groups| ::
      Valid(IfSchema(p.groups[i].condition, elements), data) && Str(name) in RequiredOf(p.groups[i].members)
  }

  lemma DemandedExactly(elements: seq<Element>, el: Element, data: Value)
    requires DistinctNames(elements) && el in elements
    ensures DemandedBySchema(elements, el.name, data) <==>
            IsRequired(el) && (el.showIf.Some? ==> Valid(IfSchema(el.showIf.value, elements), data))
  {
    var p := Collect(elements);
    CollectGroups(elements);
    CollectPlain(elements);
    NamesAreUnique(elements, el);
    forall i | 0 <= i < |p.groups|
      ensures Str(el.name) in RequiredOf(p.groups[i].members) <==>
              IsRequired(el) && el.showIf == Some(p.groups[i].condition)
    {
      assert MembersAre(p.groups[i], elements);
      MembersCollected(p.groups[i].members);
    }
  }

  /** The loader reports an element as not found exactly when the schema demands its
      absent key, unless it is a required one whose controller matches only numerically. */
  lemma LoaderAgreesExactly<T>(elements: seq<Element>, el: Element, data: Value, convert: Value -> Option<T>)
    requires DistinctNames(elements) && AllTyped(elements) && data.Obj? && el in elements
    ensures var loaded := LoadElement(data, el, elements, convert);
      var missing := loaded.Err? && loaded.error == NotFound;
      (missing <==> DemandedBySchema(elements, el.name, data) && el.name !in data.m)
      <==> !(IsRequired(el) && el.name !in data.m && el.showIf.Some? && OnlyNumerically(el.showIf.value, data))
  {
    DemandedExactly(elements, el, data);
    if el.showIf.Some? {
      IfAgreesExactly(el, data, elements);
    }
  }
}
