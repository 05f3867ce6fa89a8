/** 08-atomic-blog/src/contexts/PostContext.js: the posts held by the provider, the search
    filter over them, and the accessor that refuses to run outside the provider. Case is
    folded with ASCII lowering. */
module BlogPosts {
  import opened Wrappers
  import opened Seqs

  datatype Post = Post(title: string, body: string)

  /** `toLowerCase` on one character, ASCII letters only. */
  function LowerChar(c: char): (l: char)
    ensures !('A' <= l <= 'Z')
    ensures !('A' <= c <= 'Z') ==> l == c
  {
    if 'A' <= c <= 'Z' then (c as int - 'A' as int + 'a' as int) as char else c
  }

  function Lower(s: string): (l: string)
    ensures |l| == |s|
    ensures forall i :: 0 <= i < |s| ==> l[i] == LowerChar(s[i])
  {
    seq(|s|, i requires 0 <= i < |s| => LowerChar(s[i]))
  }

  /** Lowering twice is lowering once. */
  lemma LowerIdempotent(s: string)
    ensures Lower(Lower(s)) == Lower(s)
  {
  }

  /** `haystack.includes(needle)`. */
  predicate Includes(haystack: string, needle: string) {
    exists i :: 0 <= i <= |haystack| - |needle| && needle <= haystack[i..]
  }

  /** The text a post is searched in: `${post.title} ${post.body}`. */
  function SearchText(p: Post): string {
    p.title + " " + p.body
  }

  predicate MatchesQuery(p: Post, query: string) {
    Includes(Lower(SearchText(p)), Lower(query))
  }

  /** `searchedPosts`: every post for an empty query, else the posts whose text contains the
      query, ignoring case. */
  function SearchedPosts(posts: seq<Post>, searchQuery: string): (r: seq<Post>)
    ensures |searchQuery| == 0 ==> r == posts
    ensures SubsequenceOf(r, posts)
    ensures forall p :: p in r <==> p in posts && (|searchQuery| == 0 || MatchesQuery(p, searchQuery))
    // A matching post appears as often as in the list, a post added twice twice.
    ensures forall p :: multiset(r)[p] == if |searchQuery| == 0 || MatchesQuery(p, searchQuery) then multiset(posts)[p] else 0
  {
    if |searchQuery| > 0 then Filter(posts, (p: Post) => MatchesQuery(p, searchQuery))
    else SubsequenceOfSelf(posts); posts
  }

  /** The search ignores the case of the query. */
  lemma SearchIgnoresQueryCase(posts: seq<Post>, searchQuery: string)
    ensures SearchedPosts(posts, Lower(searchQuery)) == SearchedPosts(posts, searchQuery)
  {
    LowerIdempotent(searchQuery);
    FilterAgreeing(posts, (p: Post) => MatchesQuery(p, Lower(searchQuery)), (p: Post) => MatchesQuery(p, searchQuery));
  }

  /** `[post, ...posts]`. */
  function AddPost(posts: seq<Post>, post: Post): (r: seq<Post>)
    ensures |r| == |posts| + 1 && r[0] == post && r[1..] == posts
  {
    [post] + posts
  }

  /** `Array.from({ length: 30 }, () => randomPosts())`; the random generator is the
      parameter `generate`, asked once per index. */
  function InitialPosts(generate: nat -> Post): (r: seq<Post>)
    ensures |r| == 30
    ensures forall i :: 0 <= i < 30 ==> r[i] == generate(i)
  {
    seq(30, i requires 0 <= i => generate(i))
  }

  /** The value the provider supplies; the two handlers are the methods of `PostProvider`. */
  datatype PostContextValue = PostContextValue(posts: seq<Post>)

  const OutsideProviderMessage: string := "PostContext was used outside of the PostProvider"

  /** `usePostContext()`: `None` is the undefined context seen outside a provider. */
  function UsePostContext(context: Option<PostContextValue>): (r: Result<PostContextValue, string>)
    ensures context.None? <==> r.Err?
    ensures r.Err? ==> r.error == OutsideProviderMessage
    ensures context.Some? ==> r == Ok(context.value)
  {
    match context
    case None => Err(OutsideProviderMessage)
    case Some(v) => Ok(v)
  }

  /** The provider's `posts` state and its handlers. */
  class PostProvider {
    var posts: seq<Post>

    constructor (generate: nat -> Post)
      ensures posts == InitialPosts(generate)
    {
      posts := InitialPosts(generate);
    }

    /** The context value, given the search query of the enclosing search provider. */
    function Value(searchQuery: string): (v: PostContextValue)
      reads this
      ensures v.posts == SearchedPosts(posts, searchQuery)
    {
      PostContextValue(SearchedPosts(posts, searchQuery))
    }

    /** `handleAddPost`: the new post goes first. */
    method HandleAddPost(post: Post)
      modifies this
      ensures posts == AddPost(old(posts), post)
    {
      posts := [post] + posts;
    }

    /** `handleClearPosts`. */
    method HandleClearPosts()
      modifies this
      ensures posts == []
    {
      posts := [];
    }
  }
}
