/**
 * The quote service of src/go-graphql/crud/main.go: a global slice of
 * quotes read by the `quote` and `list` query resolvers and appended to by
 * the `create` mutation. The random id and the clock are inputs.
 */
module Quotes {
  import opened Wrappers
  import opened GraphQLValues
  import Search

  /** A `time.Time` reading, kept abstract. */
  datatype Instant = Instant(unixNano: int)

  /** `text` is the source's `Quote` field (JSON "quote"). */
  datatype Quote = Quote(id: int, text: string, author: string, tags: seq<string>, date: Instant)

  /** `create` draws its id from rand.Intn(100000). */
  const RandomIdBound := 100000

  /** The single quote the global slice starts with, id 1; its date is the start-up time. */
  function SeedQuotes(startedAt: Instant): (seed: seq<Quote>)
    ensures |seed| == 1 && seed[0].id == 1 && seed[0].date == startedAt
  {
    [Quote(1, "Hello world", "John Will", ["love", "hate"], startedAt)]
  }

  /** The key the `quote` resolver compares with its `id` argument (`int(quote.ID)`). */
  function QuoteId(q: Quote): int {
    q.id
  }

  /** The arguments `create` asserts without checking: present and of the right type. */
  predicate CreateArgsOk(args: Args) {
    && "quote" in args && args["quote"].StringVal?
    && "author" in args && args["author"].StringVal?
    && "tags" in args && args["tags"].ListVal?
  }

  /** The `stringTags` loop: each tag becomes its fmt.Sprint text, in place. */
  method CoerceTags(tags: seq<Value>) returns (stringTags: seq<string>)
    ensures |stringTags| == |tags|
    ensures forall i :: 0 <= i < |tags| ==> stringTags[i] == Sprint(tags[i])
    ensures forall i :: 0 <= i < |tags| && tags[i].StringVal? ==> stringTags[i] == tags[i].s
  {
    var buffer := new string[|tags|];
    for i := 0 to |tags|
      invariant forall j :: 0 <= j < i ==> buffer[j] == Sprint(tags[j])
    {
      buffer[i] := Sprint(tags[i]);
    }
    stringTags := buffer[..];
  }

  class QuoteStore {
    var quotes: seq<Quote>

    /** The global slice as initialised, the clock read at start-up. */
    constructor (startedAt: Instant)
      ensures quotes == SeedQuotes(startedAt)
    {
      quotes := [Quote(1, "Hello world", "John Will", ["love", "hate"], startedAt)];
    }

    /** The `quote` query resolver. */
    method QuoteById(args: Args) returns (r: Option<Quote>)
      ensures r == FindById(quotes, QuoteId, args)
    {
      var id := IntArg(args, "id");
      if id.Some? {
        var i := 0;
        while i < |quotes|
          invariant 0 <= i <= |quotes|
          invariant forall j :: 0 <= j < i ==> quotes[j].id != id.value
        {
          if quotes[i].id == id.value {
            return Some(quotes[i]);
          }
          i := i + 1;
        }
      }
      return None;
    }

    /** The `list` query resolver. */
    method List() returns (all: seq<Quote>)
      ensures all == quotes
    {
      all := quotes;
    }

    /** The `create` mutation resolver. */
    method Create(args: Args, randomId: nat, now: Instant) returns (created: Quote)
      requires CreateArgsOk(args)
      requires randomId < RandomIdBound
      modifies this
      ensures created.id == randomId
      ensures created.text == args["quote"].s && created.author == args["author"].s
      ensures created.date == now
      ensures |created.tags| == |args["tags"].items|
      ensures forall i :: 0 <= i < |created.tags| ==> created.tags[i] == Sprint(args["tags"].items[i])
      ensures quotes == old(quotes) + [created]
    {
      var stringTags := CoerceTags(args["tags"].items);
      created := Quote(randomId, args["quote"].s, args["author"].s, stringTags, now);
      quotes := quotes + [created];
    }
  }

  // ---------------------------------------------------------------------
  // Properties of the resolvers

  /** `quote(id: 1)` on the initial collection finds its one quote. */
  lemma SeedQuoteFound(startedAt: Instant)
    ensures FindById(SeedQuotes(startedAt), QuoteId, map["id" := IntVal(1)]) == Some(SeedQuotes(startedAt)[0])
  {
  }

  /** Looking up the id of a just-appended quote finds it, when no older quote has that id. */
  lemma CreateThenFind(quotes: seq<Quote>, q: Quote)
    requires forall j :: 0 <= j < |quotes| ==> quotes[j].id != q.id
    ensures FindById(quotes + [q], QuoteId, map["id" := IntVal(q.id)]) == Some(q)
  {
    Search.IndexOfAppendFresh(quotes, q, QuoteId, q.id);
  }

  /** Appending never changes the answer for an id an older quote already has. */
  lemma CreateShadowedByOlder(quotes: seq<Quote>, q: Quote, args: Args)
    requires FindById(quotes, QuoteId, args).Some?
    ensures FindById(quotes + [q], QuoteId, args) == FindById(quotes, QuoteId, args)
  {
    Search.IndexOfAppendOlder(quotes, q, QuoteId, IntArg(args, "id").value);
  }

  /**
   * No collision check: a draw of 1 right after start-up stores a second
   * quote with id 1, and `quote(id: 1)` still answers the seeded one.
   */
  lemma CreateMayCollide(startedAt: Instant, q: Quote)
    requires q.id == 1
    ensures var r := SeedQuotes(startedAt) + [q];
      && r[0].id == r[1].id
      && FindById(r, QuoteId, map["id" := IntVal(1)]) == Some(SeedQuotes(startedAt)[0])
  {
    SeedQuoteFound(startedAt);
    CreateShadowedByOlder(SeedQuotes(startedAt), q, map["id" := IntVal(1)]);
  }
}
