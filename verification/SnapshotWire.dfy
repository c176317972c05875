/** The snapshot response as it arrives: its keys, and how JavaScript turns one of its values into a number
  * (sections 7.1.1 and 7.1.4 of ECMA-262). */
module SnapshotWire {
  import opened Optional
  import opened JsText
  import opened JsonValue

  /** The object keys the sanitizer reads; every other key is `Other`. */
  datatype Field =
    | State | PlatformName | PlatformId | Regions | WhiteboxRegions | ResinRegions | AllocationPolicy
    | AClass | BClass | ManualNodes | Subscriptions | DivergentSince | Acknowledged
    | Port | Protocol | Account | Label | Enabled | AuthRequired
    | Process | TargetPort
    | Name | NodeCount | HealthyNodeCount | ConsumedBy | Resolvable
    | Phase | Stage | PhaseError | LastCascadeError | Reason | RollbackActions
    | StrategyVersion | Platforms | Ports | Routes | SubscriptionPhases | ResinReachable | LastCheckedAt
    | StrategyGeneration | StrategyAppliedGeneration | ConvergePhase | LastApplyAt | LastApplyError
    | Other(name: string)

  type Value = Json<Field>

  predicate IsObject(v: Value) { v.Obj? || v.Arr? }

  function Get(v: Value, f: Field): Value {
    if v.Obj? && f in v.fields then v.fields[f] else Missing
  }

  /** A result, or an exception on the way. */
  datatype Try<T> = Done(value: T) | Threw
  {
    predicate IsFailure() { Threw? }

    function PropagateFailure<U>(): Try<U>
      requires Threw?
    {
      Threw
    }

    function Extract(): T
      requires Done?
    {
      value
    }
  }

  /** How the engine reads a number from a text (None: not finite) and prints one; left open. */
  datatype Conversion = Conversion(parse: Text -> Option<real>, show: real -> Text)

  // ---------------------------------------------------------------------
  // Objects to primitives
  // ---------------------------------------------------------------------

  datatype Hint = NumberHint | StringHint

  datatype Method = ValueOf | ToStringMethod

  function KeyOf(m: Method): Field { if m == ValueOf then Other("valueOf") else Other("toString") }

  /** What comes of looking a method up and calling it: nothing callable, an object, a string, or an exception. */
  datatype Reply = NotCallable | ReturnedObject | ReturnedText(text: Text) | CallThrew

  /** A key of the object's own hides the inherited method, and no JSON value is callable. `Object.prototype.valueOf`
    * returns the object; an array's `toString` joins its items. */
  function Call(v: Value, m: Method, conv: Conversion): Reply
    requires IsObject(v)
    decreases v, 2, 0
  {
    if v.Obj? && KeyOf(m) in v.fields then NotCallable
    else if m == ValueOf then ReturnedObject
    else if v.Obj? then ReturnedText(Tag("[object Object]"))
    else
      var joined := JoinFrom(v, 0, conv);
      if joined.Threw? then CallThrew else ReturnedText(joined.value)
  }

  /** `Array.prototype.join` from item i on. */
  function JoinFrom(v: Value, i: nat, conv: Conversion): Try<Text>
    requires v.Arr? && i <= |v.items|
    decreases v, 1, |v.items| - i
  {
    if i == |v.items| then Done([])
    else
      var item :- ToText(v.items[i], conv);
      var rest :- JoinFrom(v, i + 1, conv);
      Done((if i == 0 then item else Tag(",") + item) + rest)
  }

  /** An item as `join` prints it: absent ones print as nothing. */
  function ToText(v: Value, conv: Conversion): Try<Text>
    decreases v, 4, 0
  {
    match v
    case Missing => Done([])
    case Null => Done([])
    case Bool(b) => Done(if b then Tag("true") else Tag("false"))
    case Num(x) => Done(conv.show(x))
    case NonFinite => Done(Tag("NaN"))
    case Str(t) => Done(t)
    case _ => OrdinaryToPrimitive(v, StringHint, conv)
  }

  /** Both methods are tried, in the order of the hint, until one returns a primitive. */
  function OrdinaryToPrimitive(v: Value, hint: Hint, conv: Conversion): Try<Text>
    requires IsObject(v)
    decreases v, 3, 0
  {
    var (first, second) := if hint == NumberHint then (ValueOf, ToStringMethod) else (ToStringMethod, ValueOf);
    match Call(v, first, conv)
    case CallThrew => Threw
    case ReturnedText(t) => Done(t)
    case _ =>
      match Call(v, second, conv)
      case ReturnedText(t) => Done(t)
      case _ => Threw
  }

  /** `Number(v)`; None when the result is not finite. */
  function Number(v: Value, conv: Conversion): Try<Option<real>> {
    match v
    case Missing => Done(None)
    case Null => Done(Some(0.0))
    case Bool(b) => Done(Some(if b then 1.0 else 0.0))
    case Num(x) => Done(Some(x))
    case NonFinite => Done(None)
    case Str(t) => Done(conv.parse(t))
    case _ =>
      var t :- OrdinaryToPrimitive(v, NumberHint, conv);
      Done(conv.parse(t))
  }

  // ---------------------------------------------------------------------
  // When it throws
  // ---------------------------------------------------------------------

  /** An object with a `toString` key of its own, or an array with such an item, however deep. */
  predicate Unconvertible(v: Value) {
    match v
    case Obj(fields) => Other("toString") in fields
    case Arr(items) => exists i :: 0 <= i < |items| && Unconvertible(items[i])
    case _ => false
  }

  lemma {:induction false} JoinThrows(v: Value, i: nat, conv: Conversion)
    requires v.Arr? && i <= |v.items|
    ensures JoinFrom(v, i, conv).Threw? <==> exists j :: i <= j < |v.items| && Unconvertible(v.items[j])
    decreases v, 0, |v.items| - i
  {
    if i < |v.items| {
      var item := v.items[i];
      JoinThrows(v, i + 1, conv);
      if IsObject(item) {
        PrimitiveThrows(item, StringHint, conv);
      }
      assert ToText(item, conv).Threw? <==> Unconvertible(item);
    }
  }

  lemma {:induction false} PrimitiveThrows(v: Value, hint: Hint, conv: Conversion)
    requires IsObject(v)
    ensures OrdinaryToPrimitive(v, hint, conv).Threw? <==> Unconvertible(v)
    decreases v, 1, 0
  {
    if v.Arr? {
      JoinThrows(v, 0, conv);
    }
  }

  /** `Number` throws exactly on the unconvertible values; a `valueOf` key makes no difference. */
  lemma NumberThrowsExactly(v: Value, conv: Conversion)
    ensures Number(v, conv).Threw? <==> Unconvertible(v)
  {
    if IsObject(v) {
      PrimitiveThrows(v, NumberHint, conv);
    }
  }

  // ---------------------------------------------------------------------
  // What it gives
  // ---------------------------------------------------------------------

  /** An object without those keys reads as its standard text. */
  lemma NumberOfObject(fields: map<Field, Value>, conv: Conversion)
    requires Other("toString") !in fields
    ensures Number(Obj(fields), conv) == Done(conv.parse(Tag("[object Object]")))
  {
    var v := Obj(fields);
    assert Call(v, ToStringMethod, conv) == ReturnedText(Tag("[object Object]"));
    assert Call(v, ValueOf, conv) == NotCallable || Call(v, ValueOf, conv) == ReturnedObject;
  }

  /** An array reads as its joined items. */
  lemma NumberOfArray(v: Value, t: Text, conv: Conversion)
    requires v.Arr? && JoinFrom(v, 0, conv) == Done(t)
    ensures Number(v, conv) == Done(conv.parse(t))
  {
    assert Call(v, ToStringMethod, conv) == ReturnedText(t);
    assert Call(v, ValueOf, conv) == ReturnedObject;
  }

  /** Texts with commas between; and each with a comma before. */
  function Joined(texts: seq<Text>): Text { if texts == [] then [] else texts[0] + Continued(texts[1..]) }

  function Continued(texts: seq<Text>): Text {
    if texts == [] then [] else Tag(",") + texts[0] + Continued(texts[1..])
  }

  lemma {:induction false} JoinStrings(v: Value, texts: seq<Text>, i: nat, conv: Conversion)
    requires v.Arr? && |v.items| == |texts| && i <= |texts|
    requires forall j :: 0 <= j < |texts| ==> v.items[j] == Str(texts[j])
    ensures JoinFrom(v, i, conv) == Done(if i == 0 then Joined(texts) else Continued(texts[i..]))
    decreases |texts| - i
  {
    if i < |texts| {
      JoinStrings(v, texts, i + 1, conv);
      assert ToText(v.items[i], conv) == Done(texts[i]);
      assert texts[i..][1..] == texts[i + 1..];
    }
  }

  /** An array of strings reads as the strings with commas between; so `[s]` reads like s. */
  lemma NumberOfStrings(v: Value, texts: seq<Text>, conv: Conversion)
    requires v.Arr? && |v.items| == |texts| && forall j :: 0 <= j < |texts| ==> v.items[j] == Str(texts[j])
    ensures Number(v, conv) == Done(conv.parse(Joined(texts)))
    ensures |texts| == 1 ==> Number(v, conv) == Number(Str(texts[0]), conv)
  {
    JoinStrings(v, texts, 0, conv);
    NumberOfArray(v, Joined(texts), conv);
    if |texts| == 1 {
      assert Continued(texts[1..]) == [] && Joined(texts) == texts[0] + [] == texts[0];
    }
  }
}
