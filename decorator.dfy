/**
 * The authorization wrapper of src/go-decorator/decorator.go. `isAuthorized`
 * wraps an endpoint and, per request, decides from the `Authorized` header
 * whether to call it, to write a refusal, or to write nothing.
 */
module Decorator {

  /** The request header: each key maps to its list of values. */
  type Header = map<string, seq<string>>

  const AuthorizedKey := "Authorized"
  const NotAuthorizedReply := "Not Authorized!"
  const HomePageReply := "Welcome to the Homepage"

  datatype Outcome = CallEndpoint | WriteNotAuthorized | NoOp

  /** `val[0]` panics on a present but empty value list. */
  predicate HeaderReadable(header: Header) {
    AuthorizedKey in header ==> |header[AuthorizedKey]| > 0
  }

  /** The decision inside the handler `isAuthorized` returns. */
  function Decide(header: Header): (o: Outcome)
    requires HeaderReadable(header)
    ensures o == CallEndpoint <==> AuthorizedKey in header && header[AuthorizedKey][0] == "true"
    ensures o == WriteNotAuthorized <==> AuthorizedKey !in header
    ensures o == NoOp <==> AuthorizedKey in header && header[AuthorizedKey][0] != "true"
  {
    if AuthorizedKey in header then
      var val := header[AuthorizedKey];
      if val[0] == "true" then CallEndpoint else NoOp
    else
      WriteNotAuthorized
  }

  /** What `homePage` writes. */
  function HomePage(): (reply: string)
    ensures reply == HomePageReply && reply != NotAuthorizedReply && reply != ""
  {
    HomePageReply
  }

  /** The body the wrapped handler writes, given what the endpoint would write. */
  function Respond(header: Header, endpointReply: string): (body: string)
    requires HeaderReadable(header)
    ensures AuthorizedKey in header && header[AuthorizedKey][0] == "true" ==> body == endpointReply
    ensures AuthorizedKey !in header ==> body == NotAuthorizedReply
    ensures AuthorizedKey in header && header[AuthorizedKey][0] != "true" ==> body == ""
  {
    match Decide(header)
    case CallEndpoint => endpointReply
    case WriteNotAuthorized => NotAuthorizedReply
    case NoOp => ""
  }

  /** Only the first value counts: later values never change the decision. */
  lemma OnlyFirstValueInspected(header: Header, first: string, rest1: seq<string>, rest2: seq<string>)
    ensures Decide(header[AuthorizedKey := [first] + rest1]) == Decide(header[AuthorizedKey := [first] + rest2])
  {
  }

  /** The comparison is exact: "True", "false", "" and "TRUE" all write nothing. */
  lemma CaseSensitive(header: Header, rest: seq<string>)
    ensures Decide(header[AuthorizedKey := ["True"] + rest]) == NoOp
    ensures Decide(header[AuthorizedKey := ["TRUE"] + rest]) == NoOp
    ensures Decide(header[AuthorizedKey := ["false"] + rest]) == NoOp
    ensures Decide(header[AuthorizedKey := [""] + rest]) == NoOp
  {
  }

  /** Other headers play no part. */
  lemma OnlyAuthorizedKeyInspected(header: Header, key: string, values: seq<string>)
    requires HeaderReadable(header)
    requires key != AuthorizedKey
    ensures Decide(header[key := values]) == Decide(header)
  {
  }

  /** `isAuthorized(homePage)`: the welcome text exactly when authorized, else the refusal or nothing. */
  lemma WrappedHomePage(header: Header)
    requires HeaderReadable(header)
    ensures Respond(header, HomePage()) == HomePageReply
            <==> AuthorizedKey in header && header[AuthorizedKey][0] == "true"
    ensures AuthorizedKey !in header ==> Respond(header, HomePage()) == NotAuthorizedReply
    ensures AuthorizedKey in header && header[AuthorizedKey][0] != "true" ==> Respond(header, HomePage()) == ""
  {
  }
}
