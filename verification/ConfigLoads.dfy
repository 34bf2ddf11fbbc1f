// What is loaded from a config: which value an element gets, and that a config the schema
// accepts gives every element its own.
module ConfigLoads {
  import opened Json
  import opened Wrappers
  import opened ConfigSchema
  import opened ConfigLaws

  lemma {:induction false} FindExactly(elements: seq<Element>, el: Element)
    requires DistinctNames(elements) && el in elements
    ensures Find(elements, el.name) == Some(el)
  {
    NamesAreUnique(elements, el);
  }

  // ---- conditions ----

  /** A condition holds exactly when its controller's value in the config, or its default if
      the config gives none, is the condition's value, or one of its list. */
  lemma ConditionHoldsExactly(el: Element, c: Condition, controller: Element, data: Value, elements: seq<Element>)
    requires DistinctNames(elements) && el.showIf == Some(c) && controller in elements && controller.name == c.element
    ensures var given := data.Obj? && controller.name in data.m;
      var actual := if given then Some(data.m[controller.name]) else controller.default_;
      ConditionHolds(el, data, elements) <==>
      exists v :: actual == Some(v) && (if c.comparator.Equal? then v == c.value else c.value.Arr? && v in c.value.a)
  {
    FindExactly(elements, controller);
  }

  // An element without a condition is always active.
  lemma UnconditionalHolds(el: Element, data: Value, elements: seq<Element>)
    requires el.showIf.None?
    ensures ConditionHolds(el, data, elements)
  {
  }

  // ---- declarations ----

  /** Compilation fails exactly if a condition names no element, the element itself, or one
      that is conditional. */
  lemma BuildFailsExactly(elements: seq<Element>)
    requires DistinctNames(elements)
    ensures Build(elements).None? <==>
            exists el | el in elements && el.showIf.Some? ::
              forall c | c in elements :: c.name == el.showIf.value.element ==> c.name == el.name || c.showIf.Some?
  {
    forall el | el in elements && el.showIf.Some?
      ensures !Declared(el, elements) <==>
              forall c | c in elements :: c.name == el.showIf.value.element ==> c.name == el.name || c.showIf.Some?
    {
      var found := Find(elements, el.showIf.value.element);
      if found.Some? {
        NamesAreUnique(elements, found.value);
      }
    }
    if el :| el in elements && !Declared(el, elements) {
      assert el.showIf.Some?;
    }
  }

  // So every controller of a compiled schema is among its plain properties.
  lemma ControllersAreProperties(elements: seq<Element>, el: Element)
    requires DistinctNames(elements) && Build(elements).Some? && el in elements && el.showIf.Some?
    ensures el.showIf.value.element in Build(elements).value.properties
  {
    assert Declared(el, elements);
    var controller := Find(elements, el.showIf.value.element).value;
    EachElementHasOnePlace(elements, controller);
  }

  // ---- loading ----

  predicate Required(el: Element) {
    el.required == Some(true) || (el.required.None? && el.default_.None?)
  }

  /** A value given is the value loaded, or the element's error if it does not convert. */
  lemma GivenIsLoaded<T>(elements: seq<Element>, el: Element, data: Value, convert: Value -> Option<T>)
    requires data.Obj? && el.name in data.m && data.m[el.name] != Null
    ensures var loaded, v := LoadElement(data, el, elements, convert), data.m[el.name];
      && (loaded.Ok? <==> convert(v).Some?) && (loaded.Ok? ==> convert(v) == Some(loaded.value))
      && (loaded.Err? ==> loaded.error == BadValue)
  {
  }

  /** A null or a missing key loads the default, a null standing in for none; but a null
      given for a required element is what is loaded, and a required element that is active
      and missing is not found. */
  lemma MissingIsDefaulted<T>(elements: seq<Element>, el: Element, data: Value, convert: Value -> Option<T>)
    requires data.Obj? && (el.name in data.m ==> data.m[el.name] == Null)
    ensures var loaded := LoadElement(data, el, elements, convert);
      if Required(el) && el.name in data.m then
        (loaded.Ok? <==> convert(Null).Some?) && (loaded.Ok? ==> convert(Null) == Some(loaded.value))
      else if Required(el) && ConditionHolds(el, data, elements) then loaded == Err(NotFound)
      else
        var v := if el.default_.Some? then el.default_.value else Null;
        (loaded.Ok? <==> convert(v).Some?) && (loaded.Ok? ==> convert(v) == Some(loaded.value))
  {
  }

  predicate AnyMismatch(elements: seq<Element>, data: Value)
    requires AllTyped(elements)
  {
    exists el | el in elements && el.showIf.Some? :: OnlyNumerically(el.showIf.value, data)
  }

  /** On a config the schema accepts, if no controller matches only numerically, the loader
      finds every element, and an element's value is the config's own wherever it gives one. */
  lemma AcceptedConfigLoads<T>(elements: seq<Element>, el: Element, data: Value, convert: Value -> Option<T>)
    requires Build(elements).Some? && DistinctNames(elements) && AllTyped(elements) && data.Obj? && el in elements
    requires Valid(Emit(Build(elements).value), data) && !AnyMismatch(elements, data)
    ensures var loaded := LoadElement(data, el, elements, convert);
      && loaded != Err(NotFound)
      && (el.name in data.m && data.m[el.name] != Null ==>
            var converted := convert(data.m[el.name]);
            if converted.Some? then loaded == Ok(converted.value) else loaded == Err(BadValue))
      && (el.name in data.m && (el.showIf.None? || ConditionHolds(el, data, elements)) ==>
            Valid(el.json, data.m[el.name]))
  {
    AcceptedIsFulfilled(elements, el, data);
    GivenOrFound(elements, el, data, convert);
  }

  lemma AcceptedIsFulfilled(elements: seq<Element>, el: Element, data: Value)
    requires Build(elements).Some? && DistinctNames(elements) && AllTyped(elements) && data.Obj? && el in elements
    requires Valid(Emit(Build(elements).value), data) && !AnyMismatch(elements, data)
    ensures ConditionHolds(el, data, elements) ==> Fulfilled(el, data)
  {
    SchemaMeansElements(elements, data);
    if el.showIf.Some? {
      IfAgreesExactly(el, data, elements);
      IfMeansShown(el.showIf.value, data, elements);
    }
    if Active(el, data, elements) {
      assert Fulfilled(el, data);
    }
  }

  lemma GivenOrFound<T>(elements: seq<Element>, el: Element, data: Value, convert: Value -> Option<T>)
    requires data.Obj? && (ConditionHolds(el, data, elements) ==> Fulfilled(el, data))
    ensures LoadElement(data, el, elements, convert) != Err(NotFound)
  {
    if !(el.name in data.m) {
      MissingIsDefaulted(elements, el, data, convert);
    }
  }
}
