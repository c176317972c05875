/** JSON values as the web client holds them. */
module JsonValue {
  import opened JsText

  /** Objects are keyed by `K`. `Missing` is JavaScript's `undefined`; `NonFinite` is NaN or an infinity. */
  datatype Json<K> =
    | Missing
    | Null
    | Bool(flag: bool)
    | Num(value: real)
    | NonFinite
    | Str(text: Text)
    | Arr(items: seq<Json<K>>)
    | Obj(fields: map<K, Json<K>>)

  /** Survives `JSON.stringify` and parsing unchanged: no `undefined`, NaN or infinity anywhere inside. */
  predicate Serializable<K(!new)>(v: Json<K>) {
    match v
    case Missing => false
    case NonFinite => false
    case Arr(items) => forall i :: 0 <= i < |items| ==> Serializable(items[i])
    case Obj(fields) => forall k :: k in fields ==> Serializable(fields[k])
    case _ => true
  }
}
