/**
  The in-memory posts store of the Express exercise server: an ordered list of
  posts plus the counter that hands out ids, the eight request handlers that
  act on them, and the invariant every handler keeps (ids positive, strictly
  increasing in list order and below the counter; fields non-empty).

  JavaScript truthiness is stated explicitly: a string field is missing when
  it is empty (an absent or `undefined` value is modelled as the empty
  string), and an id is missing when it is 0 (an absent id is modelled as 0).
 */
module PostStore {
  import opened JsBuiltins

  datatype Post = Post(id: int, author: string, title: string, contents: string)

  /** The two kinds of failure the handlers answer with status 422. */
  datatype Error = ValidationError(message: string) | NotFoundError(message: string)

  datatype Result<T> = Ok(value: T) | Err(error: Error)

  // The error messages, as the handlers send them.
  const MISSING_CREATE_FIELDS := "No se recibieron los parámetros necesarios para crear el Post"
  const NO_POSTS_FOR_AUTHOR := "No existe ningun post del autor indicado"
  const NO_POSTS_FOR_AUTHOR_AND_TITLE := "No existe ningun post con dicho titulo y autor indicado"
  const MISSING_UPDATE_FIELDS := "No se recibieron los parámetros necesarios para modificar el Post"
  const POST_NOT_FOUND := "No se encontró el Post"
  const MISSING_ID := " No hay Id crack "
  const NO_POST_WITH_ID := " No hay post crack "
  const MISSING_AUTHOR := "No hay author"
  const AUTHOR_NOT_FOUND := "No existe el autor indicado"

  // The callbacks the handlers pass to filter and find.

  function HasAuthor(author: string): Post -> bool { (p: Post) => p.author == author }
  function OtherAuthor(author: string): Post -> bool { (p: Post) => p.author != author }
  function HasAuthorAndTitle(author: string, title: string): Post -> bool
  {
    (p: Post) => p.author == author && p.title == title
  }
  function HasId(id: int): Post -> bool { (p: Post) => p.id == id }
  function OtherId(id: int): Post -> bool { (p: Post) => p.id != id }
  function MentionsTerm(term: string): Post -> bool
  {
    (p: Post) => Includes(p.title, term) || Includes(p.contents, term)
  }

  /** `term` is a substring of the post's title or of its contents. */
  ghost predicate Mentions(p: Post, term: string)
  {
    (exists i :: OccursAt(p.title, term, i)) || (exists i :: OccursAt(p.contents, term, i))
  }

  /** What every reachable state of the store satisfies. */
  predicate ValidState(posts: seq<Post>, nextId: int)
  {
    1 <= nextId &&
    (forall i :: 0 <= i < |posts| ==>
      1 <= posts[i].id < nextId &&
      posts[i].author != [] && posts[i].title != [] && posts[i].contents != []) &&
    (forall i, j :: 0 <= i < j < |posts| ==> posts[i].id < posts[j].id)
  }

  /** Any subsequence of a valid list of posts is valid with the same counter. */
  lemma {:induction false} SubsequenceKeepsValid(r: seq<Post>, s: seq<Post>, nextId: int)
    requires ValidState(s, nextId) && IsSubsequence(r, s)
    ensures ValidState(r, nextId)
    decreases |s|
  {
    if r != [] {
      SubsequenceMultiset(r, s);
      forall x | x in r ensures x in s {
        assert multiset(r)[x] > 0;
      }
      assert ValidState(s[1..], nextId);
      if r[0] == s[0] && IsSubsequence(r[1..], s[1..]) {
        SubsequenceKeepsValid(r[1..], s[1..], nextId);
        SubsequenceMultiset(r[1..], s[1..]);
        forall j | 1 <= j < |r| ensures r[0].id < r[j].id {
          assert multiset(r[1..])[r[j]] > 0;
          assert r[j] in s[1..];
        }
      } else {
        SubsequenceKeepsValid(r, s[1..], nextId);
      }
    }
  }

  /** In a valid list, the post at index `i` is the only one with its id. */
  lemma IdsAreUnique(posts: seq<Post>, nextId: int, i: nat)
    requires ValidState(posts, nextId) && i < |posts|
    ensures forall j :: 0 <= j < |posts| && j != i ==> posts[j].id != posts[i].id
    ensures FindIndex(posts, HasId(posts[i].id)) == Some(i)
  {
  }

  /**
    In a valid list, filtering out the id of the post at index `i` removes
    exactly that post.
   */
  lemma RemoveById(posts: seq<Post>, nextId: int, i: nat)
    requires ValidState(posts, nextId) && i < |posts|
    ensures Filter(posts, OtherId(posts[i].id)) == posts[..i] + posts[i + 1..]
  {
    var keep := OtherId(posts[i].id);
    var before, after := posts[..i], posts[i + 1..];
    IdsAreUnique(posts, nextId, i);
    forall j | 0 <= j < |before| ensures keep(before[j]) {
      assert before[j] == posts[j];
    }
    forall j | 0 <= j < |after| ensures keep(after[j]) {
      assert after[j] == posts[i + 1 + j];
    }
    assert posts == before + [posts[i]] + after;
    FilterDropsOne(before, posts[i], after, keep);
  }

  /** Filtering out an id leaves a valid list in which no post has that id. */
  lemma FilterOutIdKeepsValid(posts: seq<Post>, nextId: int, id: int)
    requires ValidState(posts, nextId)
    ensures ValidState(Filter(posts, OtherId(id)), nextId)
    ensures forall p :: p in Filter(posts, OtherId(id)) ==> p.id != id
  {
    var kept := Filter(posts, OtherId(id));
    SubsequenceKeepsValid(kept, posts, nextId);
    assert forall p :: p in kept ==> OtherId(id)(p);
  }

  // Queries: the handlers that only read the list.

  /**
    GET /posts: with a non-empty term, the posts whose title or contents
    contains it; with an empty or absent term, every post. Never fails.
   */
  function Search(posts: seq<Post>, term: string): (r: seq<Post>)
    ensures term == [] ==> r == posts
    ensures term != [] ==> IsFiltering(r, posts, MentionsTerm(term))
    ensures term != [] ==> forall p :: p in r <==> p in posts && Mentions(p, term)
  {
    if term != [] then Filter(posts, MentionsTerm(term)) else posts
  }

  /**
    GET /posts/:author: the posts by exactly that author, in list order; an
    error when there are none.
   */
  function PostsByAuthor(posts: seq<Post>, author: string): (r: Result<seq<Post>>)
    ensures r.Err? <==> forall p :: p in posts ==> p.author != author
    ensures r.Err? ==> r.error == NotFoundError(NO_POSTS_FOR_AUTHOR)
    ensures r.Ok? ==> r.value != [] && IsFiltering(r.value, posts, HasAuthor(author))
    ensures r.Ok? ==> forall p :: p in r.value <==> p in posts && p.author == author
  {
    var matched := Filter(posts, HasAuthor(author));
    if |matched| == 0 then Err(NotFoundError(NO_POSTS_FOR_AUTHOR))
    else
      assert matched[0] in matched;
      Ok(matched)
  }

  /**
    GET /posts/:author/:title: the posts with exactly that author and title,
    in list order; an error when there are none.
   */
  function PostsByAuthorAndTitle(posts: seq<Post>, author: string, title: string): (r: Result<seq<Post>>)
    ensures r.Err? <==> forall p :: p in posts ==> !(p.author == author && p.title == title)
    ensures r.Err? ==> r.error == NotFoundError(NO_POSTS_FOR_AUTHOR_AND_TITLE)
    ensures r.Ok? ==> r.value != [] && IsFiltering(r.value, posts, HasAuthorAndTitle(author, title))
    ensures r.Ok? ==> forall p :: p in r.value <==> p in posts && p.author == author && p.title == title
  {
    var matched := Filter(posts, HasAuthorAndTitle(author, title));
    if |matched| == 0 then Err(NotFoundError(NO_POSTS_FOR_AUTHOR_AND_TITLE))
    else
      assert matched[0] in matched;
      Ok(matched)
  }

  /** The store: the module-level `posts` list and `newId` counter of the server. */
  class Store {
    var posts: seq<Post>
    var nextId: int

    ghost predicate Valid()
      reads this
    {
      ValidState(posts, nextId)
    }

    /** The state at start-up: no posts, and the first id handed out is 1. */
    constructor ()
      ensures Valid() && posts == [] && nextId == 1
    {
      posts := [];
      nextId := 1;
    }

    /**
      POST /posts: with author, title and contents all present, appends a new
      post carrying the next id and returns it; otherwise fails and changes
      nothing.
     */
    method CreatePost(author: string, title: string, contents: string) returns (r: Result<Post>)
      requires Valid()
      modifies this
      ensures Valid()
      ensures author != [] && title != [] && contents != [] ==>
        r == Ok(Post(old(nextId), author, title, contents)) &&
        posts == old(posts) + [r.value] && nextId == old(nextId) + 1
      ensures author == [] || title == [] || contents == [] ==>
        r == Err(ValidationError(MISSING_CREATE_FIELDS)) &&
        posts == old(posts) && nextId == old(nextId)
    {
      if author == [] || title == [] || contents == [] {
        return Err(ValidationError(MISSING_CREATE_FIELDS));
      }
      var post := Post(nextId, author, title, contents);
      posts := posts + [post];
      nextId := nextId + 1;
      r := Ok(post);
    }

    /**
      POST /posts/author/:author: the same as CreatePost, with the author
      taken from the path instead of the body.
     */
    method CreatePostForAuthor(author: string, title: string, contents: string) returns (r: Result<Post>)
      requires Valid()
      modifies this
      ensures Valid()
      ensures author != [] && title != [] && contents != [] ==>
        r == Ok(Post(old(nextId), author, title, contents)) &&
        posts == old(posts) + [r.value] && nextId == old(nextId) + 1
      ensures author == [] || title == [] || contents == [] ==>
        r == Err(ValidationError(MISSING_CREATE_FIELDS)) &&
        posts == old(posts) && nextId == old(nextId)
    {
      r := CreatePost(author, title, contents);
    }

    /**
      PUT /posts: with id, title and contents present and a post with that
      id in the list, replaces that post's title and contents and returns it;
      its id, author and position stay, every other post is untouched.
     */
    method UpdatePost(id: int, title: string, contents: string) returns (r: Result<Post>)
      requires Valid()
      modifies this
      ensures Valid() && nextId == old(nextId)
      ensures id == 0 || title == [] || contents == [] ==>
        r == Err(ValidationError(MISSING_UPDATE_FIELDS)) && posts == old(posts)
      ensures (id != 0 && title != [] && contents != [] &&
               forall p :: p in old(posts) ==> p.id != id) ==>
        r == Err(NotFoundError(POST_NOT_FOUND)) && posts == old(posts)
      ensures forall i ::
        (0 <= i < |old(posts)| && old(posts)[i].id == id && title != [] && contents != []) ==>
        |posts| == |old(posts)| && r == Ok(posts[i]) &&
        posts[i] == Post(id, old(posts)[i].author, title, contents) &&
        forall j :: 0 <= j < |posts| && j != i ==> posts[j] == old(posts)[j]
    {
      if id == 0 || title == [] || contents == [] {
        return Err(ValidationError(MISSING_UPDATE_FIELDS));
      }
      var found := FindIndex(posts, HasId(id));
      if found.None? {
        assert forall p :: p in posts ==> !HasId(id)(p);
        return Err(NotFoundError(POST_NOT_FOUND));
      }
      var i := found.value;
      IdsAreUnique(posts, nextId, i);
      var post := posts[i].(title := title, contents := contents);
      posts := posts[i := post];
      r := Ok(post);
    }

    /**
      DELETE /posts: with an id present and a post with that id in the list,
      removes exactly that post and acknowledges; otherwise fails and changes
      nothing. Either way, no post with that id is left afterwards, so a
      second delete of the same id fails.
     */
    method DeleteById(id: int) returns (r: Result<bool>)
      requires Valid()
      modifies this
      ensures Valid() && nextId == old(nextId)
      ensures id == 0 ==> r == Err(ValidationError(MISSING_ID)) && posts == old(posts)
      ensures id != 0 && (forall p :: p in old(posts) ==> p.id != id) ==>
        r == Err(NotFoundError(NO_POST_WITH_ID)) && posts == old(posts)
      ensures forall i :: 0 <= i < |old(posts)| && old(posts)[i].id == id ==>
        r == Ok(true) && posts == old(posts)[..i] + old(posts)[i + 1..]
      ensures forall p :: p in posts ==> p.id != id
    {
      if id == 0 {
        return Err(ValidationError(MISSING_ID));
      }
      var found := FindIndex(posts, HasId(id));
      if found.None? {
        assert forall p :: p in posts ==> !HasId(id)(p);
        return Err(NotFoundError(NO_POST_WITH_ID));
      }
      var i := found.value;
      IdsAreUnique(posts, nextId, i);
      RemoveById(posts, nextId, i);
      FilterOutIdKeepsValid(posts, nextId, id);
      posts := Filter(posts, OtherId(id));
      r := Ok(true);
    }

    /**
      DELETE /author: with an author present who has posts, removes all of
      that author's posts, keeping the others in order, and returns the
      removed ones; otherwise fails and changes nothing.

      With the author missing, the source answers through `json`, which is
      not defined there, so the handler throws before it responds; the model
      takes the evidently intended reading, a ValidationError that leaves
      the store as it was.
     */
    method DeleteByAuthor(author: string) returns (r: Result<seq<Post>>)
      requires Valid()
      modifies this
      ensures Valid() && nextId == old(nextId)
      ensures author == [] ==> r == Err(ValidationError(MISSING_AUTHOR)) && posts == old(posts)
      ensures author != [] && (forall p :: p in old(posts) ==> p.author != author) ==>
        r == Err(NotFoundError(AUTHOR_NOT_FOUND)) && posts == old(posts)
      ensures author != [] && (exists p :: p in old(posts) && p.author == author) ==>
        r.Ok? && r.value != [] &&
        IsFiltering(r.value, old(posts), HasAuthor(author)) &&
        IsFiltering(posts, old(posts), OtherAuthor(author)) &&
        multiset(r.value) + multiset(posts) == multiset(old(posts))
      ensures r.Ok? ==> PostsByAuthor(posts, author).Err?
    {
      if author == [] {
        return Err(ValidationError(MISSING_AUTHOR));
      }
      var removed := Filter(posts, HasAuthor(author));
      if |removed| == 0 {
        return Err(NotFoundError(AUTHOR_NOT_FOUND));
      }
      FilterSplit(posts, HasAuthor(author), OtherAuthor(author));
      var kept := Filter(posts, OtherAuthor(author));
      SubsequenceKeepsValid(kept, posts, nextId);
      posts := kept;
      r := Ok(removed);
    }
  }

  /** A client scenario: create, look up, update, delete, and delete again. */
  method Walkthrough()
  {
    var store := new Store();
    var created := store.CreatePost("Ada", "Loops", "for and while");
    assert created == Ok(Post(1, "Ada", "Loops", "for and while"));
    var bad := store.CreatePost("Ada", "", "for and while");
    assert bad.Err? && store.nextId == 2;

    var byAuthor := PostsByAuthor(store.posts, "Ada");
    assert byAuthor.Ok?;

    var updated := store.UpdatePost(1, "Loops2", "do while");
    assert updated == Ok(Post(1, "Ada", "Loops2", "do while"));

    var deleted := store.DeleteById(1);
    assert deleted == Ok(true) && store.posts == [];
    var again := store.DeleteById(1);
    assert again == Err(NotFoundError(NO_POST_WITH_ID));
    var gone := PostsByAuthor(store.posts, "Ada");
    assert gone.Err?;

    var next := store.CreatePost("Ada", "Loops", "for and while");
    assert next.Ok? && next.value.id == 2;
  }
}
