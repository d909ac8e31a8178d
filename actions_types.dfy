/**
 * The console's reducer for the custom-types page of Actions: a fetching flag and the type
 * definition being edited. Each case builds a new state object from the old one.
 */
module ActionsTypes {
  import opened Wrappers
  import opened JsValue

  const SetTypeDefinitionType: string := "Actions/Types/SET_TYPE_DEFINITION"
  const SetFetchingType: string := "Actions/Types/SET_FETCHING"
  const UnsetFetchingType: string := "Actions/Types/UNSET_FETCHING"

  /** The action `setTypeDefinition(sdl, error)` builds; an omitted (`undefined`) error becomes `null`. */
  function SetTypeDefinition(sdl: JsVal, error: JsVal): (a: JsVal)
    ensures a.Obj? && a.props.Keys == {"type", "definition"}
    ensures a.props["type"] == Str(SetTypeDefinitionType)
    ensures a.props["definition"].Obj? && a.props["definition"].props.Keys == {"sdl", "error"}
    ensures a.props["definition"].props["sdl"] == sdl
    ensures a.props["definition"].props["error"] == (if error.Undefined? then Null else error)
  {
    Obj(map["type" := Str(SetTypeDefinitionType),
            "definition" := Obj(map["sdl" := sdl, "error" := if error.Undefined? then Null else error])])
  }

  /** The action `setFetching()` builds. */
  function SetFetching(): (a: JsVal)
    ensures a.Obj? && a.props.Keys == {"type"} && a.props["type"] == Str(SetFetchingType)
  {
    Obj(map["type" := Str(SetFetchingType)])
  }

  /** The action `unsetFetching()` builds. */
  function UnsetFetching(): (a: JsVal)
    ensures a.Obj? && a.props.Keys == {"type"} && a.props["type"] == Str(UnsetFetchingType)
  {
    Obj(map["type" := Str(UnsetFetchingType)])
  }

  /** Whether `action.type` is strictly equal to the given constant. */
  predicate IsType(actionType: JsVal, name: string)
  {
    StrictEquals(actionType, Str(name))
  }

  /** `reducer(state, action)`. An `undefined` state (`None`) is replaced by the default state,
      which is a parameter here. Reading `action.type` throws when the action is `undefined` or
      `null`. Each case keeps every other property of the state. */
  function Reducer(state: Option<map<string, JsVal>>, action: JsVal, defaultState: map<string, JsVal>): (r: Result<map<string, JsVal>, string>)
    ensures r.Failure? <==> action.Undefined? || action.Null?
  {
    var s := if state.None? then defaultState else state.value;
    match Get(action, "type")
    case Failure(e) => Failure(e)
    case Success(t) =>
      if IsType(t, SetFetchingType) then Success(s["isFetching" := Bool(true)])
      else if IsType(t, UnsetFetchingType) then Success(s["isFetching" := Bool(false)])
      else if IsType(t, SetTypeDefinitionType) then
        Success(s["manage" := Obj(map["definition" := Get(action, "definition").value])])
      else Success(s)
  }

  // ---------------------------------------------------------------------------------------
  // Properties

  /** Whether two states agree on every property but `key`. */
  predicate SameExcept(a: map<string, JsVal>, b: map<string, JsVal>, key: string)
  {
    a.Keys - {key} == b.Keys - {key} && forall k :: k in a && k != key ==> k in b && a[k] == b[k]
  }

  /** `setFetching` turns the flag on, keeps the rest, and a second one changes nothing. */
  lemma SetFetchingSetsFlag(state: map<string, JsVal>, d: map<string, JsVal>)
    ensures var r := Reducer(Some(state), SetFetching(), d);
      && r.Success? && "isFetching" in r.value && r.value["isFetching"] == Bool(true)
      && SameExcept(r.value, state, "isFetching")
      && Reducer(Some(r.value), SetFetching(), d) == r
  {
    var r := Reducer(Some(state), SetFetching(), d);
    assert r.value == state["isFetching" := Bool(true)];
    assert r.value["isFetching" := Bool(true)] == r.value;
  }

  /** `unsetFetching` turns the flag off and keeps the rest; the two undo each other's flag. */
  lemma UnsetFetchingClearsFlag(state: map<string, JsVal>, d: map<string, JsVal>)
    ensures var r := Reducer(Some(state), UnsetFetching(), d);
      && r.Success? && "isFetching" in r.value && r.value["isFetching"] == Bool(false)
      && SameExcept(r.value, state, "isFetching")
    ensures var on := Reducer(Some(state), SetFetching(), d).value;
      Reducer(Some(on), UnsetFetching(), d) == Reducer(Some(state), UnsetFetching(), d)
  {
    var on := Reducer(Some(state), SetFetching(), d).value;
    assert on["isFetching" := Bool(false)] == state["isFetching" := Bool(false)];
  }

  /** A type definition replaces the whole `manage` property with `{definition}`, holding the
      sdl and error the action was built from, and keeps every other property. */
  lemma SetTypeDefinitionReplacesManage(state: map<string, JsVal>, d: map<string, JsVal>, sdl: JsVal, error: JsVal)
    ensures var r := Reducer(Some(state), SetTypeDefinition(sdl, error), d);
      && r.Success? && "manage" in r.value
      && r.value["manage"].Obj? && r.value["manage"].props.Keys == {"definition"}
      && r.value["manage"].props["definition"] == SetTypeDefinition(sdl, error).props["definition"]
      && r.value["manage"].props["definition"].props["sdl"] == sdl
      && r.value["manage"].props["definition"].props["error"] == (if error.Undefined? then Null else error)
      && SameExcept(r.value, state, "manage")
  {
  }

  /** An action of any other type, or with no type, hands back the state unchanged; an
      `undefined` state is then the default state. */
  lemma OtherActionsKeepState(state: Option<map<string, JsVal>>, action: JsVal, d: map<string, JsVal>)
    requires action.Obj?
    requires "type" in action.props ==>
      var t := action.props["type"];
      !IsType(t, SetFetchingType) && !IsType(t, UnsetFetchingType) && !IsType(t, SetTypeDefinitionType)
    ensures Reducer(state, action, d) == Success(if state.None? then d else state.value)
  {
  }

  /** Action types are compared strictly: the type name wrapped in an array is another action. */
  lemma ArrayWrappedTypeIsIgnored(state: map<string, JsVal>, d: map<string, JsVal>)
    ensures Reducer(Some(state), Obj(map["type" := Arr([Str(SetFetchingType)])]), d) == Success(state)
  {
  }
}
