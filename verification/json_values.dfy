/** JSON values as the gateway's parsers produce them, over any string type `S`. */
module JsonValues {
  import opened Options

  /** Object members keep the order in which their names were first written. A number is
      identified by its lexeme: `Number(text)` itself is not interpreted. */
  datatype Json<+S> =
    | Null
    | Bool(b: bool)
    | Number(lexeme: S)
    | Str(s: S)
    | Array(items: seq<Json<S>>)
    | Object(members: seq<Member<S>>)

  datatype Member<+S> = Member(name: S, value: Json<S>)

  /** No two members of one object, at any depth, carry the same name. */
  ghost predicate UniqueNames<S>(v: Json<S>) {
    match v
    case Array(items) => forall i | 0 <= i < |items| :: UniqueNames(items[i])
    case Object(members) =>
      && DistinctNames(members)
      && forall i | 0 <= i < |members| :: UniqueNames(members[i].value)
    case _ => true
  }

  ghost predicate DistinctNames<S>(members: seq<Member<S>>) {
    forall i, j | 0 <= i < j < |members| :: members[i].name != members[j].name
  }

  /** Arrays and objects are nested at most `n` deep. */
  ghost predicate NestsWithin<S>(v: Json<S>, n: int) {
    match v
    case Array(items) => 1 <= n && forall i | 0 <= i < |items| :: NestsWithin(items[i], n - 1)
    case Object(members) =>
      1 <= n && forall i | 0 <= i < |members| :: NestsWithin(members[i].value, n - 1)
    case _ => true
  }

  /** The value of the member called `name`, if there is one. */
  function Get<S(==)>(members: seq<Member<S>>, name: S): (r: Option<Json<S>>)
    ensures r.Some? ==> Member(name, r.value) in members
    ensures r.None? <==> forall m | m in members :: m.name != name
  {
    if members == [] then None
    else if members[0].name == name then Some(members[0].value)
    else Get(members[1..], name)
  }
}
