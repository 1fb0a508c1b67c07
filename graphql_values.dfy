/**
 * The dynamically typed values a GraphQL resolver finds in `p.Args`
 * (src/go-graphql/crud/main.go, src/go-graphql/main_tutorial.go), the
 * comma-ok type assertion `p.Args[name].(int)`, and `fmt.Sprint` on them.
 */
module GraphQLValues {
  import opened Wrappers
  import Decimal
  import Search

  /** An `interface{}` argument value: nil, int, bool, string or `[]interface{}`. */
  datatype Value =
    | Null
    | IntVal(i: int)
    | BoolVal(b: bool)
    | StringVal(s: string)
    | ListVal(items: seq<Value>)

  /** `p.Args`: a missing key reads as nil. */
  type Args = map<string, Value>

  /** `v, ok := p.Args[name].(int)`: Some exactly when the argument is present and an int. */
  function IntArg(args: Args, name: string): (r: Option<int>)
    ensures r.Some? <==> name in args && args[name].IntVal?
    ensures r.Some? ==> args[name] == IntVal(r.value)
  {
    if name in args then
      match args[name]
      case IntVal(i) => Some(i)
      case _ => None
    else None
  }

  /** fmt.Sprint's space-separated list body. */
  function JoinSpaced(parts: seq<string>): string {
    if |parts| == 0 then ""
    else if |parts| == 1 then parts[0]
    else parts[0] + " " + JoinSpaced(parts[1..])
  }

  /**
   * What a `quote` or `tutorial` resolver answers: nil unless the `id`
   * argument is an int that some element has, and then the first such element.
   */
  function FindById<T>(items: seq<T>, id: T -> int, args: Args): (r: Option<T>)
    ensures r.Some? <==> exists j :: 0 <= j < |items| && IntArg(args, "id") == Some(id(items[j]))
    ensures r.Some? ==>
      exists i :: 0 <= i < |items| && r.value == items[i] && IntArg(args, "id") == Some(id(items[i]))
                  && forall j :: 0 <= j < i ==> IntArg(args, "id") != Some(id(items[j]))
  {
    match IntArg(args, "id")
    case None => None
    case Some(k) =>
      match Search.IndexOf(items, id, k)
      case Some(i) => Some(items[i])
      case None => None
  }

  /** A missing or non-int `id` yields nil whatever the collection. */
  lemma NonIntIdFindsNothing<T>(items: seq<T>, id: T -> int, args: Args)
    requires !("id" in args && args["id"].IntVal?)
    ensures FindById(items, id, args) == None
  {
  }

  /** `fmt.Sprint(v)` for the value forms above. */
  function Sprint(v: Value): (s: string)
    ensures v.StringVal? ==> s == v.s
    ensures v.IntVal? ==> s == Decimal.FromInt(v.i)
    ensures v.Null? ==> s == "<nil>"
    ensures v.ListVal? ==> |s| >= 2 && s[0] == '[' && s[|s| - 1] == ']'
    decreases v
  {
    match v
    case Null => "<nil>"
    case IntVal(i) => Decimal.FromInt(i)
    case BoolVal(b) => if b then "true" else "false"
    case StringVal(s) => s
    case ListVal(items) =>
      "[" + JoinSpaced(seq(|items|, k requires 0 <= k < |items| => Sprint(items[k]))) + "]"
  }

  /** Distinct ints print differently, so Sprint loses nothing on ints. */
  lemma SprintIntInjective(i: int, j: int)
    ensures Sprint(IntVal(i)) == Sprint(IntVal(j)) <==> i == j
  {
    Decimal.FromIntInjective(i, j);
  }
}
