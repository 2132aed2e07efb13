/** Types shared by the backend controller, the socket server and the client roster. */
module Common {

  /** A value that may be absent (a Mongoose field that was never set, a `Map.get` miss). */
  datatype Option<+T> = None | Some(value: T)

  /** The outcome of an HTTP handler: the saved document or the error the handler answers with. */
  datatype Result<+R, +E> = Success(value: R) | Failure(error: E)

  /** Timestamps are integer milliseconds, as `Date` subtraction yields them. */
  type Time = int

  /** A user identity: `req.user.id`, an ObjectId string, or the client's random socket user id. */
  type UserId = string

  /** The participant roles of the meeting schema; `Participant` is stored as the string 'participant'. */
  datatype Role = Host | Moderator | Participant

  /** `Math.floor(a / b)` for a positive divisor: Dafny's division already rounds towards minus infinity. */
  function FloorDiv(a: int, b: int): (q: int)
    requires b > 0
    ensures q * b <= a < q * b + b
  {
    a / b
  }

  /** `Math.floor(ms / 1000)`: whole seconds in a millisecond count. */
  function FloorSeconds(ms: int): (s: int)
    ensures s * 1000 <= ms < s * 1000 + 1000
  {
    FloorDiv(ms, 1000)
  }

  /** JavaScript's `%` on integers, which truncates towards zero (the sign follows the dividend). */
  function JsRem(a: int, b: int): (r: int)
    requires b > 0
    ensures a >= 0 ==> 0 <= r < b
    ensures a < 0 ==> -b < r <= 0
  {
    if a >= 0 then a % b else -((-a) % b)
  }

  /** `find` by an id field: the position of the first element whose `key` is `id`, or `None`
      when no element has it. Subdocument lookups (`participants.id(id)`) and the page's
      `participants.find(p => p.id === id)` are both this search. */
  function FindFirst<T>(s: seq<T>, key: T -> string, id: string): (r: Option<nat>)
    ensures r.None? <==> forall j :: 0 <= j < |s| ==> key(s[j]) != id
    ensures r.Some? ==> (r.value < |s| && key(s[r.value]) == id
      && forall j :: 0 <= j < r.value ==> key(s[j]) != id)
  {
    if |s| == 0 then None
    else if key(s[0]) == id then Some(0)
    else match FindFirst(s[1..], key, id)
      case None => None
      case Some(k) => Some(k + 1)
  }

  /** The search only looks at the keys: two sequences with the same keys, position by position,
      give the same answer. */
  lemma {:induction false} FindFirstSameKeys<T, U>(s: seq<T>, key: T -> string, t: seq<U>, key': U -> string, id: string)
    requires |s| == |t|
    requires forall j :: 0 <= j < |s| ==> key(s[j]) == key'(t[j])
    ensures FindFirst(s, key, id) == FindFirst(t, key', id)
    decreases |s|
  {
    if |s| > 0 && key(s[0]) != id {
      FindFirstSameKeys(s[1..], key, t[1..], key', id);
    }
  }
}
