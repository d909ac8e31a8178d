/**
 * The JavaScript values the console's action helpers and reducer handle, with the three
 * pieces of the language they rely on: property access, strict equality and `Array.prototype.find`.
 * Objects are compared and copied by contents; see README for what that leaves out.
 */
module JsValue {
  import opened Wrappers

  datatype JsVal =
    | Undefined
    | Null
    | Bool(b: bool)
    | Num(n: int)
    | Str(s: string)
    | Arr(items: seq<JsVal>)
    | Obj(props: map<string, JsVal>)

  /** The error a property access on `undefined` or `null` throws. */
  const TypeError: string := "TypeError"

  /** `v.key`: an own property of an object, `undefined` for a missing one or for any other
      kind of value, and a thrown `TypeError` on `undefined` and `null`. */
  function Get(v: JsVal, key: string): (r: Result<JsVal, string>)
    ensures r.Failure? <==> v.Undefined? || v.Null?
    ensures r.Failure? ==> r.error == TypeError
    ensures v.Obj? && key in v.props ==> r == Success(v.props[key])
    ensures v.Obj? && key !in v.props ==> r == Success(Undefined)
  {
    match v
    case Undefined => Failure(TypeError)
    case Null => Failure(TypeError)
    case Obj(m) => Success(if key in m then m[key] else Undefined)
    case _ => Success(Undefined)
  }

  /** `a.k1.k2`: the first access that throws ends the chain. */
  function GetPath(v: JsVal, k1: string, k2: string): (r: Result<JsVal, string>)
    ensures r.Success? <==> Get(v, k1).Success? && Get(Get(v, k1).value, k2).Success?
    ensures r.Success? ==> r.value == Get(Get(v, k1).value, k2).value
  {
    match Get(v, k1)
    case Failure(e) => Failure(e)
    case Success(inner) => Get(inner, k2)
  }

  predicate IsPrimitive(v: JsVal)
  {
    !(v.Arr? || v.Obj?)
  }

  /** `a === b` on primitives: same kind and same value (`undefined === undefined` holds).
      Two objects or arrays are compared by reference, which this model does not track, so they
      are never strictly equal here. */
  predicate StrictEquals(a: JsVal, b: JsVal)
  {
    IsPrimitive(a) && IsPrimitive(b) && a == b
  }

  /** Whether the `find` callback `x => x[key] === target` accepts x without throwing. */
  predicate Matches(x: JsVal, key: string, target: JsVal)
  {
    Get(x, key).Success? && StrictEquals(Get(x, key).value, target)
  }

  /** The index `items.find(x => x[key] === target)` stops at: the first match, `None` when
      the whole array is searched without one, or the `TypeError` of the first element that
      is `undefined` or `null` before any match. */
  function FindIndex(items: seq<JsVal>, key: string, target: JsVal): (r: Result<Option<nat>, string>)
    ensures r.Success? && r.value.Some? ==>
      && r.value.value < |items| && Matches(items[r.value.value], key, target)
      && forall j :: 0 <= j < r.value.value ==> Get(items[j], key).Success? && !Matches(items[j], key, target)
    decreases |items|
  {
    if items == [] then Success(None)
    else match Get(items[0], key)
      case Failure(e) => Failure(e)
      case Success(v) =>
        if StrictEquals(v, target) then Success(Some(0))
        else match FindIndex(items[1..], key, target)
          case Failure(e) => Failure(e)
          case Success(None) => Success(None)
          case Success(Some(i)) => Success(Some(i + 1))
  }

  /** `arr.find(x => x[key] === target)`: the element found or `undefined`; calling `find`
      on anything but an array throws. */
  function Find(arr: JsVal, key: string, target: JsVal): (r: Result<JsVal, string>)
    ensures !arr.Arr? ==> r.Failure?
  {
    if !arr.Arr? then Failure(TypeError)
    else match FindIndex(arr.items, key, target)
      case Failure(e) => Failure(e)
      case Success(None) => Success(Undefined)
      case Success(Some(i)) => Success(arr.items[i])
  }

  // ---------------------------------------------------------------------------------------
  // Properties

  /** A search that comes back empty looked at every element, and none matched. */
  lemma {:induction false} FindIndexNoneIff(items: seq<JsVal>, key: string, target: JsVal)
    ensures FindIndex(items, key, target) == Success(None) <==>
      forall j :: 0 <= j < |items| ==> Get(items[j], key).Success? && !Matches(items[j], key, target)
    decreases |items|
  {
    if items != [] {
      FindIndexNoneIff(items[1..], key, target);
      assert forall j :: 1 <= j < |items| ==> items[j] == items[1..][j - 1];
    }
  }

  /** A search throws exactly when an element that is `undefined` or `null` is reached before any match. */
  lemma {:induction false} FindIndexFailsIff(items: seq<JsVal>, key: string, target: JsVal)
    ensures FindIndex(items, key, target).Failure? <==>
      exists k :: (0 <= k < |items| && (items[k].Undefined? || items[k].Null?) &&
        forall j :: 0 <= j < k ==> !Matches(items[j], key, target))
    decreases |items|
  {
    if items != [] {
      FindIndexFailsIff(items[1..], key, target);
      var tail := items[1..];
      if FindIndex(items, key, target).Failure? && Get(items[0], key).Success? {
        var k :| (0 <= k < |tail| && (tail[k].Undefined? || tail[k].Null?) &&
          forall j :: 0 <= j < k ==> !Matches(tail[j], key, target));
        assert forall j :: 1 <= j < k + 1 ==> items[j] == tail[j - 1];
        assert items[k + 1] == tail[k];
      }
    }
  }

  /** The element `Find` returns is never `undefined`: an `undefined` result means no match. */
  lemma FindResultIsAMatch(arr: JsVal, key: string, target: JsVal)
    requires Find(arr, key, target).Success? && Find(arr, key, target).value != Undefined
    ensures exists i :: (0 <= i < |arr.items| && arr.items[i] == Find(arr, key, target).value &&
      Matches(arr.items[i], key, target))
  {
    var i := FindIndex(arr.items, key, target).value.value;
    assert arr.items[i] == Find(arr, key, target).value;
  }
}
