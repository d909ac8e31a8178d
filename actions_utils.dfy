/**
 * The console's helpers over action and custom-type metadata: look-ups by name and the
 * fields of an action's definition. Every property access may throw on `undefined` or `null`,
 * so each helper returns the value or the thrown `TypeError`.
 */
module ActionsUtils {
  import opened Wrappers
  import opened JsValue

  /** `findType(types, typeName)`: the first type whose `name` is strictly `typeName`. */
  function FindType(types: JsVal, typeName: JsVal): (r: Result<JsVal, string>)
    ensures r.Success? && r.value != Undefined ==>
      types.Arr? && r.value in types.items && Matches(r.value, "name", typeName)
  {
    var r := Find(types, "name", typeName);
    if r.Success? && r.value != Undefined then FindResultIsAMatch(types, "name", typeName); r
    else r
  }

  /** `getActionName(action)`. */
  function GetActionName(action: JsVal): (r: Result<JsVal, string>)
    ensures r.Failure? <==> action.Undefined? || action.Null?
    ensures action.Obj? ==> r == Success(if "action_name" in action.props then action.props["action_name"] else Undefined)
  {
    Get(action, "action_name")
  }

  /** `findAction(actions, actionName)`: the first action whose name is strictly `actionName`. */
  function FindAction(actions: JsVal, actionName: JsVal): (r: Result<JsVal, string>)
    ensures r.Success? && r.value != Undefined ==>
      actions.Arr? && r.value in actions.items && GetActionName(r.value).Success?
      && StrictEquals(GetActionName(r.value).value, actionName)
  {
    var r := Find(actions, "action_name", actionName);
    if r.Success? && r.value != Undefined then FindResultIsAMatch(actions, "action_name", actionName); r
    else r
  }

  /** `getActionOutputType(action)`: `action.action_defn.output_type`. */
  function GetActionOutputType(action: JsVal): (r: Result<JsVal, string>)
    ensures r.Failure? <==> (action.Undefined? || action.Null? ||
      Get(action, "action_defn").value.Undefined? || Get(action, "action_defn").value.Null?)
    ensures action.Obj? && "action_defn" in action.props && action.props["action_defn"].Obj? ==>
      var defn := action.props["action_defn"].props;
      r == Success(if "output_type" in defn then defn["output_type"] else Undefined)
  {
    GetPath(action, "action_defn", "output_type")
  }

  /** `getActionOutputFields(action, types)`: the `fields` of the type named by the action's
      output type. A name no type carries makes `outputType` undefined, and reading its
      `fields` throws. */
  function GetActionOutputFields(action: JsVal, types: JsVal): (r: Result<JsVal, string>)
    ensures r.Success? ==> GetActionOutputType(action).Success? && FindType(types, GetActionOutputType(action).value).Success?
    ensures r.Success? ==> r == Get(FindType(types, GetActionOutputType(action).value).value, "fields")
  {
    match GetActionOutputType(action)
    case Failure(e) => Failure(e)
    case Success(name) =>
      match FindType(types, name)
      case Failure(e) => Failure(e)
      case Success(t) => Get(t, "fields")
  }

  /** `getActionArguments(action)`: `action.action_defn.arguments`. */
  function GetActionArguments(action: JsVal): (r: Result<JsVal, string>)
    ensures r.Failure? <==> (action.Undefined? || action.Null? ||
      Get(action, "action_defn").value.Undefined? || Get(action, "action_defn").value.Null?)
    ensures action.Obj? && "action_defn" in action.props && action.props["action_defn"].Obj? ==>
      var defn := action.props["action_defn"].props;
      r == Success(if "arguments" in defn then defn["arguments"] else Undefined)
  {
    GetPath(action, "action_defn", "arguments")
  }

  /** `getAllActions(getState)` for the state `getState()` returns: `state.actions.common.actions`. */
  function GetAllActions(state: JsVal): (r: Result<JsVal, string>)
    ensures r.Failure? <==> (state.Undefined? || state.Null? ||
      Get(state, "actions").value.Undefined? || Get(state, "actions").value.Null? ||
      GetPath(state, "actions", "common").value.Undefined? || GetPath(state, "actions", "common").value.Null?)
    ensures r.Failure? ==> r.error == TypeError
    ensures (state.Obj? && "actions" in state.props && state.props["actions"].Obj? &&
             "common" in state.props["actions"].props && state.props["actions"].props["common"].Obj?) ==>
      var common := state.props["actions"].props["common"].props;
      r == Success(if "actions" in common then common["actions"] else Undefined)
  {
    match GetPath(state, "actions", "common")
    case Failure(e) => Failure(e)
    case Success(c) => Get(c, "actions")
  }

  // ---------------------------------------------------------------------------------------
  // Properties

  /** A type name no type carries gives `undefined`, when every element has a `name` to read. */
  lemma {:induction false} MissingTypeIsUndefined(items: seq<JsVal>, typeName: JsVal)
    requires forall j :: 0 <= j < |items| ==> Get(items[j], "name").Success? && !Matches(items[j], "name", typeName)
    ensures FindType(Arr(items), typeName) == Success(Undefined)
  {
    FindIndexNoneIff(items, "name", typeName);
  }

  /** With a unique name, the type found is that one. */
  lemma FindTypeUnique(items: seq<JsVal>, i: nat, typeName: JsVal)
    requires i < |items| && Matches(items[i], "name", typeName)
    requires forall j :: 0 <= j < |items| && j != i ==> Get(items[j], "name").Success? && !Matches(items[j], "name", typeName)
    ensures FindType(Arr(items), typeName) == Success(items[i])
  {
    FindIndexAt(items, "name", typeName, i);
  }

  /** The search stops at the first matching index when every earlier element is readable. */
  lemma {:induction false} FindIndexAt(items: seq<JsVal>, key: string, target: JsVal, i: nat)
    requires i < |items| && Matches(items[i], key, target)
    requires forall j :: 0 <= j < i ==> Get(items[j], key).Success? && !Matches(items[j], key, target)
    ensures FindIndex(items, key, target) == Success(Some(i))
    decreases i
  {
    if i > 0 {
      assert forall j :: 0 <= j < i - 1 ==> items[1..][j] == items[j + 1];
      FindIndexAt(items[1..], key, target, i - 1);
    }
  }

  /** The fields given for an action are those of the first type whose `name` is strictly the
      action's `output_type`, when every type before it has a `name` to read. */
  lemma OutputFieldsOfNamedType(action: map<string, JsVal>, defn: map<string, JsVal>, items: seq<JsVal>, i: nat)
    requires "action_defn" in action && action["action_defn"] == Obj(defn) && "output_type" in defn
    requires i < |items| && Matches(items[i], "name", defn["output_type"])
    requires forall j :: 0 <= j < i ==> Get(items[j], "name").Success? && !Matches(items[j], "name", defn["output_type"])
    ensures GetActionOutputFields(Obj(action), Arr(items)) == Get(items[i], "fields")
  {
    FindIndexAt(items, "name", defn["output_type"], i);
  }

  /** An action whose output type names no known type throws instead of giving fields. */
  lemma UnknownOutputTypeThrows(action: JsVal, items: seq<JsVal>)
    requires GetActionOutputType(action).Success?
    requires FindType(Arr(items), GetActionOutputType(action).value) == Success(Undefined)
    ensures GetActionOutputFields(action, Arr(items)) == Failure(TypeError)
  {
  }

  /** The accessors read back what an action definition holds: its name, its output type and
      its arguments, each unchanged. */
  lemma DefinitionFieldsReadBack(name: JsVal, outputType: JsVal, arguments: JsVal)
    ensures var action := Obj(map["action_name" := name,
                                  "action_defn" := Obj(map["output_type" := outputType, "arguments" := arguments])]);
      && GetActionName(action) == Success(name)
      && GetActionOutputType(action) == Success(outputType)
      && GetActionArguments(action) == Success(arguments)
  {
  }

  /** A definition without arguments gives `undefined`; a missing definition throws. */
  lemma MissingDefinitionFields(action: map<string, JsVal>)
    requires "action_defn" !in action
    ensures GetActionArguments(Obj(action)) == Failure(TypeError)
    ensures GetActionOutputType(Obj(action)) == Failure(TypeError)
    ensures GetActionArguments(Obj(action["action_defn" := Obj(map[])])) == Success(Undefined)
  {
  }

  /** The actions list stored in the state is what `getAllActions` returns, and a state without
      its `actions.common` branch throws. */
  lemma StoredActionsAreRead(items: seq<JsVal>)
    ensures GetAllActions(Obj(map["actions" := Obj(map["common" := Obj(map["actions" := Arr(items)])])])) == Success(Arr(items))
    ensures GetAllActions(Obj(map["actions" := Obj(map[])])) == Failure(TypeError)
    ensures GetAllActions(Obj(map[])) == Failure(TypeError)
  {
  }

  /** An action found by name carries that name: `findAction` and `getActionName` agree. */
  lemma FoundActionHasName(items: seq<JsVal>, name: string)
    requires FindAction(Arr(items), Str(name)).Success? && FindAction(Arr(items), Str(name)).value != Undefined
    ensures GetActionName(FindAction(Arr(items), Str(name)).value) == Success(Str(name))
  {
  }
}
