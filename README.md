# Posts store of the Express exercise server

A Dafny model of the in-memory posts API in `05-Express/homework/src/server.js`.
The server keeps two pieces of process-wide state: the list `posts` and the
counter `newId` that hands out post ids (starting at 1). Eight request handlers
act on them: two creates (body author, or author from the path), a search by
substring of title or contents, exact lookups by author and by author plus
title, an update of title and contents, a delete by id and a bulk delete by
author. A failing handler answers status 422 with an error message (one
exception, described below); the model returns `Err(ValidationError(msg))` for missing input and
`Err(NotFoundError(msg))` when nothing matches, with the source's messages.

The project has two modules:

- `JsBuiltins` (`builtins.dfy`): the JavaScript built-ins the handlers are
  written with. `Array.prototype.filter` is `Filter`, specified by
  `IsFiltering`: a subsequence that holds only passing elements and each
  passing element as often as the input does. `FilterUnique` proves that
  exactly one sequence meets that specification. `Array.prototype.find` is
  `FindIndex`, the position of the first match. `String.prototype.includes`
  is `Includes`, specified by substring occurrence (`OccursAt`).
- `PostStore` (`posts.dfy`): the `Post` record, the `Store` class holding
  `posts: seq<Post>` and `nextId`, its invariant `ValidState`, the mutating
  handlers as methods of `Store`, and the read-only handlers as functions
  over `seq<Post>`. The invariant says every id is at least 1 and below
  `nextId`, ids strictly increase in list order (so they are unique and never
  reused after a delete), and author, title and contents are non-empty.
  `Walkthrough` is a client method that calls create, lookup, update, delete
  and a second delete and asserts each outcome from their contracts alone.

JavaScript truthiness is written out. A string input is missing when it is
empty; an absent value is modelled as the empty string. An id is a number,
and it is missing when it is 0; an absent id is modelled as 0. Equality
`===` is Dafny's `==` on strings and integers.

The `DELETE /author` handler (`server.js:127-128`) answers a missing author
with `res.status(...), json(...)`. That is a comma expression calling an
undefined `json`, so the handler throws instead of sending its 422 body.
The model follows the evident intent: `DeleteByAuthor` returns
`Err(ValidationError("No hay author"))` and leaves the store unchanged. In
both readings the store is untouched.

## Model

| member | source | states |
|---|---|---|
| `JsBuiltins.Filter` | 05-Express/homework/src/server.js:65 | the result is a subsequence of the input in the same order, holds only elements that pass the test, and holds every passing element as often as the input; membership is exactly "in the input and passes" |
| `JsBuiltins.FilterUnique` | 05-Express/homework/src/server.js:55 | any sequence meeting the filter specification equals `Filter`'s result, so the query contracts determine their results completely |
| `JsBuiltins.FilterSplit` | 05-Express/homework/src/server.js:131-137 | the posts kept and the posts removed by complementary filters together are the original posts, as a multiset and in number |
| `JsBuiltins.FindIndex` | 05-Express/homework/src/server.js:94 | a found index holds a match and no earlier element matches; nothing is found exactly when no element matches |
| `JsBuiltins.Includes` | 05-Express/homework/src/server.js:55 | true exactly when the term occurs as a contiguous substring at some position |
| `PostStore.IdsAreUnique` | 05-Express/homework/src/server.js:94 | in a valid store no other post shares a post's id, so `find` by that id returns exactly that post |
| `PostStore.SubsequenceKeepsValid` | 05-Express/homework/src/server.js:137 | removing posts while keeping the order preserves the store invariant with the same counter |
| `PostStore.FilterOutIdKeepsValid` | 05-Express/homework/src/server.js:119 | filtering out an id keeps the store invariant with the same counter and leaves no post with that id |
| `PostStore.RemoveById` | 05-Express/homework/src/server.js:119 | in a valid store, filtering out one post's id removes exactly that post and keeps the rest in order |
| `PostStore.Search` | 05-Express/homework/src/server.js:51-59 | with an empty term the result is all posts in order; otherwise exactly the filter of the posts whose title or contents contains the term, in order; never an error (all fields being strings) |
| `PostStore.PostsByAuthor` | 05-Express/homework/src/server.js:62-73 | an error exactly when no post has that author; otherwise the non-empty, order-preserving filter of the posts with exactly that author |
| `PostStore.PostsByAuthorAndTitle` | 05-Express/homework/src/server.js:75-85 | an error exactly when no post has both that author and that title; otherwise the non-empty, order-preserving filter of the posts matching both |
| `PostStore.Store.constructor` | 05-Express/homework/src/server.js:8-10 | the store starts with no posts and the counter at 1, satisfying the invariant |
| `PostStore.Store.CreatePost` | 05-Express/homework/src/server.js:15-30 | with all three fields present, appends exactly one post with id equal to the old counter and the given fields, returns it and increments the counter; otherwise a validation error with posts and counter unchanged; the invariant is kept |
| `PostStore.Store.CreatePostForAuthor` | 05-Express/homework/src/server.js:32-48 | the same contract as `CreatePost`, with the author taken from the path |
| `PostStore.Store.UpdatePost` | 05-Express/homework/src/server.js:87-103 | a validation error if id, title or contents is missing and a not-found error if no post has the id, both with nothing changed; otherwise only that post's title and contents change, its id, author and position stay, all other posts are untouched and it is returned; the counter never changes |
| `PostStore.Store.DeleteById` | 05-Express/homework/src/server.js:106-122 | a missing id or an unknown id is an error with nothing changed; a known id removes exactly that post, keeping the others in order, and succeeds; afterwards no post has that id, so a repeated delete fails; the counter never changes |
| `PostStore.Store.DeleteByAuthor` | 05-Express/homework/src/server.js:124-140 | a missing author or an author with no posts is an error with nothing changed; otherwise returns exactly that author's posts in order, leaves exactly the other posts in order, loses no post, and a later lookup by that author fails |

## Left out

- HTTP and Express plumbing (`express()`, JSON body parsing, routing, `req.params`, `req.query`, `res.status(...).json(...)`, the 422 constant): the model returns `Ok` or `Err` instead of a response.
- Field values that are not strings (numbers, booleans, arrays, objects, `null` in a JSON body, or a repeated query parameter) and their truthiness: every field is a string. Such values pass the presence check (`{"author":"a","title":5,"contents":"c"}` is stored). While such a post is in the list, a title or contents that is a number, boolean or object makes a search with a term throw whenever that field's `includes` is reached (for contents, only when the title does not already contain the term); an array field is matched by element equality instead of by substring.
- Ids that are not integers: every id is an integer.
- Strings are sequences of Unicode scalar values, not of UTF-16 code units: a JSON body carrying a lone surrogate, and an `includes` match on half of a surrogate pair, cannot be expressed.
- PostStore.Store.CreatePost: the counter is an unbounded integer, whereas the source's `newId` is a JavaScript number (a double) that stops changing at 2^53, after which every create would reuse the same id; the model's unique-id invariant holds only below that bound.
- PostStore.Store.CreatePostForAuthor: the same unbounded counter as `CreatePost`; the source's counter stops at 2^53.
- PostStore.Search: "never an error" and substring matching hold because every stored field is a string here; in the source a stored title or contents that is a number, boolean or object makes a search with a term throw whenever that field's `includes` is reached (for contents, only when the title does not already contain the term), and an array field is matched by element equality.
- Ids sent as strings (`"1"`): under `===` they never match a numeric id, so the source answers "not found"; the model has only integer ids.
- Object identity: the update handler assigns to the fields of the object held in the list. Posts are values here, so the model replaces the list element; no other reference to the object exists in the store.
- `module.exports = { posts, server }` (server.js:148): it exports a reference that stops tracking the list once a delete reassigns `posts`; that is JavaScript aliasing, not store behaviour.
- `JsBuiltins.FindIndex`: returns the position of the first match rather than the element itself, so that the update can replace the element in place.
- Starting the server and the other exercises of the repository (the command dispatcher, the promise drills, the two file servers): they are I/O and asynchrony with no store logic.
