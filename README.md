# go-exercises record collections, in Dafny

This project models the parts of the go-exercises repository that hold state or make decisions:

- **Book API** (`src/http-api/main.go`). A global slice of books is served over REST. `getBooks` lists it. `getBook` finds the first book with the path id, or answers the zero `Book`. `createBook` appends the decoded body under a random mock id below 1000. `updateBook` splices out the first match and appends the decoded body under the same id. `deleteBook` splices out the first match only. The model is the class `Books.BookStore`. Its `seq<Book>` field is reassigned by methods with the same loops and early exits as the handlers. `GetBook`, `UpdateBook` and `DeleteBook` are proved against the functions `Lookup`, `AfterUpdate` and `AfterDelete`; `GetBooks`, `CreateBook` and the `Seeded` constructor state their results directly.
- **Quote GraphQL service** (`src/go-graphql/crud/main.go`). A global slice of quotes starts with one quote. The `quote` resolver returns the first quote whose id equals the int argument `id`, and nil otherwise. The `list` resolver returns the slice. The `create` mutation turns the untyped `tags` list into strings with `fmt.Sprint`, filling a `make`d slice by index. It then appends a quote with a random id below 100000 and the current time. The model is the class `Quotes.QuoteStore`, plus `Quotes.CoerceTags`, which fills an array like the source.
- **Tutorial GraphQL server** (`src/go-graphql/main_tutorial.go`). `populate` builds a fixed two-tutorial list. The `tutorial` resolver searches it by id, and `list` returns it. Nothing writes to the list, so the resolvers are methods over a `seq` passed by value.
- **Authorization decorator** (`src/go-decorator/decorator.go`). The handler built by `isAuthorized` looks up the `Authorized` header. It calls the endpoint if the first value is exactly `"true"`. It writes `Not Authorized!` if the header is absent. Otherwise it writes nothing. This is the pure function `Decorator.Decide`.

Shared modules:

- `Decimal` covers `strconv.Itoa` and `fmt.Sprint` on ints. It has an inverse, `ToNat`, used to prove that the decimal text is injective.
- `GraphQLValues` covers the dynamically typed `p.Args` values, the comma-ok assertion `p.Args["id"].(int)` and `fmt.Sprint`.
- `Search` holds the first-match search that every handler and resolver repeats, over any key projection, with lemmas about appending.
- `Wrappers` provides `Option`.

Random numbers, the clock, the JSON-decoded request body and the routed path id are all parameters. Each random number carries its range bound as a precondition.

The quote service has no update, delete, bulk import or date parsing. Its `create` requires `author` and `tags`, because their unchecked type assertions panic when they are missing. It never checks ids for collisions. The lemmas `Books.CreateMayDuplicateId` and `Quotes.CreateMayCollide` show concrete collisions.

## Model

| member | source | states |
|---|---|---|
| Search.IndexOf | src/http-api/main.go:43-48 | the first position whose key equals the requested one; none exactly when no element has it (the same loop recurs at src/go-graphql/crud/main.go:81-85 and src/go-graphql/main_tutorial.go:128-133) |
| Search.IndexOfAppendFresh | src/http-api/main.go:58 | after an append, a key no earlier element had is found at the new last position |
| Search.IndexOfAppendOlder | src/go-graphql/crud/main.go:141 | an append never changes the position found for a key an earlier element already has |
| Books.SeedBooks | src/http-api/main.go:102-107 | the seed has three books with ids "1", "2", "3", pairwise distinct |
| Books.Lookup | src/http-api/main.go:39-50 | when some book has the id, the reply is the stored book at the first position with that id; otherwise it is the zero Book |
| Books.RemoveAt | src/http-api/main.go:88 | the splice drops exactly one element, keeps the earlier ones in place and shifts the later ones down by one (same multiset minus the removed book) |
| Books.AfterDelete | src/http-api/main.go:86-92 | with a match: one shorter, the books before the first match in place, the books after it shifted down in order, the same multiset minus the removed book; without a match: unchanged |
| Books.AfterUpdate | src/http-api/main.go:67-75 | with a match: same length, books before the first match in place, the books after it shifted down in order, the decoded book under the requested id last, multiset with the old book swapped for the new; without a match: unchanged |
| Books.BookStore.Seeded | src/http-api/main.go:102-107 | the collection main builds is the three seed books, in order |
| Books.BookStore.GetBooks | src/http-api/main.go:33-36 | getBooks answers the stored collection unchanged, and the method changes nothing |
| Books.BookStore.GetBook | src/http-api/main.go:39-50 | the search loop answers the first match or the zero Book, and changes nothing |
| Books.BookStore.CreateBook | src/http-api/main.go:53-60 | the decoded book, with its id replaced by the decimal text of the draw, is appended; every earlier book is unchanged |
| Books.BookStore.UpdateBook | src/http-api/main.go:63-79 | with a match: first match spliced out and the decoded book appended under the requested id, which is also the reply; without: collection unchanged and the whole list is the reply |
| Books.BookStore.DeleteBook | src/http-api/main.go:82-93 | only the first match is spliced out (nothing changes without one); the reply is the resulting collection |
| Books.DeleteThenGetIsEmpty | src/http-api/main.go:86-92 | from a collection with distinct ids, getBook after deleteBook on the same id answers the zero Book |
| Books.DeletePreservesDistinctIds | src/http-api/main.go:86-92 | deleting keeps ids pairwise distinct |
| Books.UpdatePreservesDistinctIds | src/http-api/main.go:67-75 | updating keeps ids pairwise distinct, because the replacement keeps the requested id |
| Books.UpdateThenGet | src/http-api/main.go:67-75 | with distinct ids, getBook after a matching update answers the replacement book |
| Books.CreateThenGet | src/http-api/main.go:57-58 | getBook on a freshly assigned id answers the created book, provided no older book already had that id |
| Books.CreateMayDuplicateId | src/http-api/main.go:57-58 | no uniqueness check: a draw of 2 on the seed leaves two books with id "2", and getBook("2") still answers the older one |
| Decimal.FromNat | src/http-api/main.go:57 | the Itoa text is nonempty, all digits, has no leading zero, and is one digit exactly for values below 10 |
| Decimal.FromInt | src/go-graphql/crud/main.go:130 | an int's text is nonempty, and is all digits exactly when the int is non-negative |
| Decimal.ToNatFromNat | src/http-api/main.go:57 | reading the decimal text back yields the number |
| Decimal.FromNatInjective | src/http-api/main.go:57 | different draws give different id strings |
| Decimal.FromIntInjective | src/go-graphql/crud/main.go:130 | different ints print differently, sign included |
| GraphQLValues.IntArg | src/go-graphql/crud/main.go:78 | the comma-ok assertion succeeds exactly when the argument is present and an int, and then yields that int |
| GraphQLValues.Sprint | src/go-graphql/crud/main.go:130 | fmt.Sprint leaves a string unchanged, prints an int in decimal, nil as `<nil>`, and a list in brackets |
| GraphQLValues.FindById | src/go-graphql/crud/main.go:77-88 | the `quote` and `tutorial` resolvers answer an element exactly when `id` is an int some element has, and then the first element with it; a missing or non-int `id` gives nil |
| GraphQLValues.NonIntIdFindsNothing | src/go-graphql/crud/main.go:78-87 | a missing or non-int `id` yields nil, whatever the collection |
| GraphQLValues.SprintIntInjective | src/go-graphql/crud/main.go:130 | fmt.Sprint of distinct ints gives distinct tags |
| Quotes.SeedQuotes | src/go-graphql/crud/main.go:25-36 | the initial slice holds exactly one quote, with id 1, dated at start-up |
| Quotes.CreateArgsOk | src/go-graphql/crud/main.go:114-137 | `quote` and `author` are present strings and `tags` a present list, the conditions under which `create`'s type assertions do not panic |
| Quotes.CoerceTags | src/go-graphql/crud/main.go:126-131 | same length and order as the input; each tag is fmt.Sprint of the input at that index; string inputs pass through unchanged |
| Quotes.QuoteStore.constructor | src/go-graphql/crud/main.go:25-36 | the slice starts as the single seed quote |
| Quotes.QuoteStore.QuoteById | src/go-graphql/crud/main.go:77-88 | the `quote` resolver's loop answers FindById on the stored quotes and changes nothing |
| Quotes.QuoteStore.List | src/go-graphql/crud/main.go:97-99 | the `list` resolver answers the stored slice unchanged |
| Quotes.QuoteStore.Create | src/go-graphql/crud/main.go:124-143 | exactly one quote is appended and returned. It has the drawn id below 100000, the quote and author arguments verbatim, the clock's time, and tags coerced element-wise. Earlier quotes are untouched. The `quote`, `author` and `tags` arguments must be present and typed |
| Quotes.SeedQuoteFound | src/go-graphql/crud/main.go:25-36 | `quote(id: 1)` on the initial slice finds its one quote |
| Quotes.CreateThenFind | src/go-graphql/crud/main.go:134-141 | after an append, `quote(id)` on the new id finds the new quote, provided no older quote had that id |
| Quotes.CreateShadowedByOlder | src/go-graphql/crud/main.go:81-85 | appending never changes the answer for an id an older quote already has |
| Quotes.CreateMayCollide | src/go-graphql/crud/main.go:133-135 | no collision check: a draw of 1 after start-up stores a second quote with id 1, and `quote(id: 1)` still answers the seed quote |
| Tutorials.Populate | src/go-graphql/main_tutorial.go:33-58 | `populate` returns exactly two tutorials, ids 1 then 2 |
| Tutorials.ResolveTutorial | src/go-graphql/main_tutorial.go:123-136 | the resolver's search loop answers FindById on the captured list |
| Tutorials.ListTutorials | src/go-graphql/main_tutorial.go:139-145 | `list` answers the captured list unchanged |
| Tutorials.PopulateShape | src/go-graphql/main_tutorial.go:33-58 | each populated tutorial has one comment and is by "John Will", whose Tutorials list equals the ids `populate` produces |
| Tutorials.PopulateIdsDistinct | src/go-graphql/main_tutorial.go:35-46 | the populated ids are distinct |
| Tutorials.Part2Lookup | src/go-graphql/main_tutorial.go:44-51 | `tutorial(id: 2)` on the populated list finds "Go GraphQL tutorial - part2" and its comment |
| Decorator.Decide | src/go-decorator/decorator.go:20-29 | the endpoint is called iff the header is present with first value exactly "true"; "Not Authorized!" iff the header is absent; nothing otherwise |
| Decorator.HomePage | src/go-decorator/decorator.go:38 | `homePage` writes "Welcome to the Homepage", which is neither the refusal nor empty |
| Decorator.Respond | src/go-decorator/decorator.go:20-29 | the wrapped handler writes the endpoint's reply when authorized, "Not Authorized!" without the header, and nothing otherwise |
| Decorator.OnlyFirstValueInspected | src/go-decorator/decorator.go:22 | values after the first never change the decision |
| Decorator.CaseSensitive | src/go-decorator/decorator.go:22 | "True", "TRUE", "false" and "" all lead to writing nothing |
| Decorator.OnlyAuthorizedKeyInspected | src/go-decorator/decorator.go:20 | headers other than `Authorized` play no part |
| Decorator.WrappedHomePage | src/go-decorator/decorator.go:20-38 | `isAuthorized(homePage)` writes "Welcome to the Homepage" exactly when authorized, "Not Authorized!" without the header, and nothing otherwise |

## Left out

- HTTP plumbing is left out: routing, `ListenAndServe`, `mux.Vars` and the `Content-Type` header. The path id is a parameter.
- JSON encoding is left out: each handler's encoded reply is its method result.
- JSON decoding is left out: the decoded `Book` is a parameter. Decode errors are discarded by the source.
- The GraphQL engine is left out: schema objects, `graphql.Do` and `executeQuery`. Resolvers take already typed `p.Args`.
- `rand.Seed`, `rand.Intn` and `time.Now` are left out. They become bounded parameters and an `Instant` parameter.
- `fmt.Sprint` covers only nil, int, bool, string and lists of those. Floats and other Go types are not modelled.
- Concurrency is left out. The source touches its global slices from HTTP handlers without locks; the model has single-threaded sequential calls only.
- Go slice aliasing is left out. `append(books[:index], ...)` writes into the shared backing array, but each update or delete returns before the range loop looks at it again, so only the resulting sequence is modelled.
- Go's 64-bit `int` wrap-around is left out. The only ids involved are below 100000, so integers are unbounded.
- The request-header side effect in `homePage` (`r.Header.Set`) is left out. It happens after the decision and changes nothing the model observes.
- Console logging (`fmt.Println`, `reflect.TypeOf`) is left out.
- The pointer demo, the timing decorator and the "hello world" GraphQL responder are not part of this model.
- Quote update, delete, bulk import and date parsing are not modelled: they do not exist in the quote service's code.
- Decorator.Decide requires a non-empty `Authorized` value list; the source panics on an empty one (src/go-decorator/decorator.go:22). `Decorator.Respond` carries the same requirement.
