// Conditional configuration elements: the JSON Schema compiled for one object level
// (config/schema.rs) and the loader that reads a deployed config (config/mod.rs).
module ConfigSchema {
  import opened Json
  import opened Wrappers

  datatype Comparator = Equal | In

  datatype Condition = Condition(element: string, comparator: Comparator, value: Value)

  // `json` is the element's own schema.
  datatype Element = Element(
    name: string, required: Option<bool>, default_: Option<Value>, showIf: Option<Condition>, json: Value)

  // `Condition::to_test`.
  function ToTest(c: Condition): Value {
    match c.comparator
    case Equal => Single("const", c.value)
    case In => Single("enum", c.value)
  }

  // `Condition::matches`, by structural equality; no value never matches.
  predicate Matches(c: Condition, actual: Option<Value>) {
    actual.Some? &&
    match c.comparator
    case Equal => actual.value == c.value
    case In => c.value.Arr? && actual.value in c.value.a
  }

  predicate IsRequired(el: Element) {
    el.required.GetOr(el.default_.None?)
  }

  function Find(elements: seq<Element>, name: string): (found: Option<Element>)
    ensures found.Some? ==> found.value in elements && found.value.name == name
    ensures found.None? ==> forall el | el in elements :: el.name != name
  {
    if elements == [] then None
    else if elements[0].name == name then Some(elements[0])
    else Find(elements[1..], name)
  }

  function DefaultOf(elements: seq<Element>, name: string): Option<Value> {
    var el := Find(elements, name);
    if el.Some? then el.value.default_ else None
  }

  // What a condition's controller is worth for a config: its value, else its default.
  function Actual(c: Condition, data: Value, siblings: seq<Element>): Option<Value> {
    var given := Get(data, c.element);
    if given.Some? then given else DefaultOf(siblings, c.element)
  }

  predicate ConditionHolds(el: Element, data: Value, siblings: seq<Element>) {
    el.showIf.Some? ==> Matches(el.showIf.value, Actual(el.showIf.value, data, siblings))
  }

  // ---- the compiler ----

  datatype Group = Group(condition: Condition, members: seq<Element>)

  datatype Partial = Partial(properties: map<string, Value>, required: seq<Value>, groups: seq<Group>)

  datatype ObjectSchema = ObjectSchema(properties: map<string, Value>, required: seq<Value>, allOf: seq<Value>)

  // Declaration errors make the compiler panic.
  predicate Declared(el: Element, elements: seq<Element>) {
    el.showIf.Some? ==>
      var controller := Find(elements, el.showIf.value.element);
      controller.Some? && controller.value.name != el.name && controller.value.showIf.None?
  }

  function GroupIndex(groups: seq<Group>, c: Condition): (i: Option<nat>)
    ensures i.Some? ==> i.value < |groups| && groups[i.value].condition == c
    ensures i.None? ==> forall g | g in groups :: g.condition != c
  {
    if groups == [] then None
    else if groups[0].condition == c then Some(0)
    else match GroupIndex(groups[1..], c)
      case None => None
      case Some(i) => Some(i + 1)
  }

  function AddMember(groups: seq<Group>, c: Condition, el: Element): seq<Group> {
    match GroupIndex(groups, c)
    case None => groups + [Group(c, [el])]
    case Some(i) => groups[i := Group(c, groups[i].members + [el])]
  }

  function AddElement(p: Partial, el: Element): Partial {
    match el.showIf
    case Some(c) => p.(groups := AddMember(p.groups, c, el))
    case None =>
      Partial(p.properties[el.name := el.json], p.required + if IsRequired(el) then [Str(el.name)] else [], p.groups)
  }

  function Collect(elements: seq<Element>): Partial {
    if elements == [] then Partial(map[], [], [])
    else AddElement(Collect(elements[..|elements| - 1]), elements[|elements| - 1])
  }

  function PropertiesOf(members: seq<Element>): map<string, Value> {
    if members == [] then map[]
    else PropertiesOf(members[..|members| - 1])[members[|members| - 1].name := members[|members| - 1].json]
  }

  function RequiredOf(members: seq<Element>): seq<Value> {
    if members == [] then []
    else RequiredOf(members[..|members| - 1])
         + if IsRequired(members[|members| - 1]) then [Str(members[|members| - 1].name)] else []
  }

  // `properties` is satisfied by an absent controller, so the controller is required
  // unless its default satisfies the condition.
  function IfSchema(c: Condition, elements: seq<Element>): Value {
    var test := map["properties" := Single(c.element, ToTest(c))];
    Obj(if Matches(c, DefaultOf(elements, c.element)) then test else test["required" := Arr([Str(c.element)])])
  }

  function ThenSchema(members: seq<Element>): Value {
    var properties := map["properties" := Obj(PropertiesOf(members))];
    Obj(if RequiredOf(members) == [] then properties else properties["required" := Arr(RequiredOf(members))])
  }

  function Branch(g: Group, elements: seq<Element>): Value {
    Obj(map["if" := IfSchema(g.condition, elements), "then" := ThenSchema(g.members)])
  }

  function Branches(groups: seq<Group>, elements: seq<Element>): seq<Value> {
    seq(|groups|, i requires 0 <= i < |groups| => Branch(groups[i], elements))
  }

  function Build(elements: seq<Element>): Option<ObjectSchema> {
    if exists el | el in elements :: !Declared(el, elements) then None
    else
      var p := Collect(elements);
      Some(ObjectSchema(p.properties, p.required, Branches(p.groups, elements)))
  }

  // How an object level is emitted: `allOf` only when there are branches.
  function Emit(o: ObjectSchema): Value {
    var always := map["properties" := Obj(o.properties), "required" := Arr(o.required)];
    Obj(if o.allOf == [] then always else always["allOf" := Arr(o.allOf)])
  }

  method BuildObjectSchema(elements: seq<Element>) returns (built: Option<ObjectSchema>)
    ensures built == Build(elements)
  {
    var properties: map<string, Value> := map[];
    var required: seq<Value> := [];
    var groups: seq<Group> := [];
    for i := 0 to |elements|
      invariant Partial(properties, required, groups) == Collect(elements[..i])
      invariant forall el | el in elements[..i] :: Declared(el, elements)
    {
      var el := elements[i];
      assert elements[..i + 1][..i] == elements[..i];
      match el.showIf
      case None =>
        properties := properties[el.name := el.json];
        if IsRequired(el) {
          required := required + [Str(el.name)];
        }
      case Some(c) =>
        var controller := Find(elements, c.element);
        if controller.None? || controller.value.name == el.name || controller.value.showIf.Some? {
          assert !Declared(el, elements);
          return None;
        }
        var g := GroupIndex(groups, c);
        if g.Some? {
          groups := groups[g.value := Group(c, groups[g.value].members + [el])];
        } else {
          groups := groups + [Group(c, [el])];
        }
    }
    assert elements[..|elements|] == elements;
    var allOf: seq<Value> := [];
    for i := 0 to |groups|
      invariant allOf == Branches(groups[..i], elements)
    {
      var branch := BuildBranch(groups[i], elements);
      allOf := allOf + [branch];
      assert allOf == Branches(groups[..i + 1], elements);
    }
    assert groups[..|groups|] == groups;
    return Some(ObjectSchema(properties, required, allOf));
  }

  method BuildBranch(g: Group, elements: seq<Element>) returns (branch: Value)
    ensures branch == Branch(g, elements)
  {
    var properties: map<string, Value> := map[];
    var required: seq<Value> := [];
    for i := 0 to |g.members|
      invariant properties == PropertiesOf(g.members[..i]) && required == RequiredOf(g.members[..i])
    {
      assert g.members[..i + 1][..i] == g.members[..i];
      properties := properties[g.members[i].name := g.members[i].json];
      if IsRequired(g.members[i]) {
        required := required + [Str(g.members[i].name)];
      }
    }
    assert g.members[..|g.members|] == g.members;
    var then_ := map["properties" := Obj(properties)];
    if required != [] {
      then_ := then_["required" := Arr(required)];
    }
    branch := Obj(map["if" := IfSchema(g.condition, elements), "then" := Obj(then_)]);
  }

  // ---- the loader ----

  datatype LoadError = NotFound | BadValue | BadDefault | BadInactive

  // `convert` is the field's `from_config_value`.
  function LoadElement<T>(data: Value, el: Element, siblings: seq<Element>, convert: Value -> Option<T>)
    : Result<T, LoadError>
  {
    var given, fallback := Get(data, el.name), el.default_.GetOr(Null);
    if given.None? && !ConditionHolds(el, data, siblings) then Converted(convert(fallback), BadInactive)
    else if given.Some? && given.value != Null then Converted(convert(given.value), BadValue)
    else if !IsRequired(el) then Converted(convert(fallback), BadDefault)
    else if given.Some? then Converted(convert(given.value), BadValue)
    else Err(NotFound)
  }

  function Converted<T>(converted: Option<T>, error: LoadError): Result<T, LoadError> {
    if converted.Some? then Ok(converted.value) else Err(error)
  }
}
