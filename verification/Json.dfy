/**
 JSON dictionaries as the ledger uses them: field names, values, and the
 dictionary idioms (`get`, truthiness) they are read with.
 */
module Json {

  /** An optional value; None also stands for a raised exception. */
  datatype Option<+T> = None | Some(value: T) {
    predicate IsFailure() {
      None?
    }

    function PropagateFailure<U>(): Option<U>
      requires None?
    {
      None
    }

    function Extract(): T
      requires Some?
    {
      value
    }
  }

  type Text = string
  type Bytes = seq<bv8>

  /** A dictionary key. Every name has exactly one representation: the named
      constructors stand for their own string, `PrevBlockHash(v)` for
      "prev_block_hash_v{v}", `Enc(f)` for f's name followed by "_enc", and
      `Named(s)` for any string none of these covers. */
  datatype Field =
    | Type
    | DayIndex
    | Date
    | Month
    | Year
    | PrevHash
    | KeyVersion
    | FormatVersion
    | BlockHash
    | DayHash
    | MonthHash
    | YearHash
    | IdentitySeal
    | Signature
    | Identity
    | SecretFallback
    | RecoverySeed
    | Title
    | Duration
    | IsActive
    | StartTime
    | EndTime
    | Metadata
    | Pauses
    | Comment
    | Media
    | ContentHash
    | PrevBlockHash(version: int)
    | Enc(base: Field)
    | Named(name: Text)

  datatype Value =
    | Null
    | Bool(b: bool)
    | Int(n: int)
    | Str(s: Text)
    | List(items: seq<Value>)
    | Obj(members: map<Field, Value>)

  type Data = map<Field, Value>

  /** Python truthiness of a JSON value. */
  predicate Truthy(v: Value) {
    match v
    case Null => false
    case Bool(b) => b
    case Int(n) => n != 0
    case Str(s) => s != ""
    case List(items) => items != []
    case Obj(members) => members != map[]
  }

  /** The falsy values are null, false, zero and the empty text, list and dictionary. */
  lemma FalsyIs(v: Value)
    ensures !Truthy(v) <==> v in {Null, Bool(false), Int(0), Str(""), List([]), Obj(map[])}
  {
  }

  /** `d.get(f)`. */
  function Get(d: Data, f: Field): Value {
    if f in d then d[f] else Null
  }

  /** Every field not in `changed` is as it was. */
  ghost predicate AgreeBut(a: Data, b: Data, changed: set<Field>) {
    forall f | f !in changed :: (f in a <==> f in b) && Get(a, f) == Get(b, f)
  }

  /** `a or b`. */
  function Or(a: Value, b: Value): Value {
    if Truthy(a) then a else b
  }
}
