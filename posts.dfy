/** The post manager's local copy of the post list and the three list
    computations its handlers and its view perform on it. */
module Posts {

  import opened Options

  /** A post as the page holds it. Posts loaded with the list carry the
      store's `created_at`; a post echoed by the create endpoint has none. */
  datatype Post = Post(id: int, title: string, content: string, author: string, createdAt: Option<string>)

  /** How many posts the "recent" tab shows. */
  const RecentCount: nat := 5

  /** `{ ...post, title, content, author }`: the post with its three editable
      fields rewritten and everything else kept. */
  function Edited(p: Post, title: string, content: string, author: string): Post
  {
    p.(title := title, content := content, author := author)
  }

  /** `posts.map(post => post.id === id ? { ...post, title, content, author } : post)`:
      same length, and entry by entry either the edited post (when the id
      matches) or the old entry. */
  function ReplaceById(posts: seq<Post>, id: int, title: string, content: string, author: string): (r: seq<Post>)
    ensures |r| == |posts|
    ensures forall i :: 0 <= i < |posts| ==>
              r[i] == if posts[i].id == id then Edited(posts[i], title, content, author) else posts[i]
  {
    if posts == [] then []
    else
      var head := if posts[0].id == id then Edited(posts[0], title, content, author) else posts[0];
      [head] + ReplaceById(posts[1..], id, title, content, author)
  }

  /** `posts.filter(post => post.id !== id)`: a post is kept exactly when its
      id differs from `id`. */
  function RemoveById(posts: seq<Post>, id: int): (r: seq<Post>)
    ensures |r| <= |posts|
    ensures forall p :: p in r <==> p in posts && p.id != id
  {
    if posts == [] then []
    else if posts[0].id == id then RemoveById(posts[1..], id)
    else [posts[0]] + RemoveById(posts[1..], id)
  }

  /** `filteredPosts`: the first five posts on the "recent" tab, all of them
      on any other tab; in both cases a prefix of the list. */
  function Visible(posts: seq<Post>, activeTab: string): (r: seq<Post>)
    ensures |r| <= |posts| && r == posts[..|r|]
    ensures activeTab == "recent" ==> |r| == if |posts| < RecentCount then |posts| else RecentCount
    ensures activeTab != "recent" ==> r == posts
  {
    if activeTab == "recent" then
      if |posts| < RecentCount then posts else posts[..RecentCount]
    else
      posts
  }

  /** The number of posts in the list with the given id. */
  function CountId(posts: seq<Post>, id: int): nat
  {
    if posts == [] then 0
    else (if posts[0].id == id then 1 else 0) + CountId(posts[1..], id)
  }

  /** Updating an id that is not in the list is a no-op. */
  lemma {:induction false} ReplaceAbsentId(posts: seq<Post>, id: int, title: string, content: string, author: string)
    requires CountId(posts, id) == 0
    ensures ReplaceById(posts, id, title, content, author) == posts
  {
    if posts != [] {
      ReplaceAbsentId(posts[1..], id, title, content, author);
    }
  }

  /** An update touches only the posts with its id: dropping that id before
      or after the update gives the same list. */
  lemma {:induction false} ReplaceThenRemove(posts: seq<Post>, id: int, title: string, content: string, author: string)
    ensures RemoveById(ReplaceById(posts, id, title, content, author), id) == RemoveById(posts, id)
  {
    if posts != [] {
      var r := ReplaceById(posts, id, title, content, author);
      assert r[1..] == ReplaceById(posts[1..], id, title, content, author);
      ReplaceThenRemove(posts[1..], id, title, content, author);
    }
  }

  /** Applying the same update twice is the same as applying it once. */
  lemma ReplaceIdempotent(posts: seq<Post>, id: int, title: string, content: string, author: string)
    ensures ReplaceById(ReplaceById(posts, id, title, content, author), id, title, content, author)
            == ReplaceById(posts, id, title, content, author)
  {
  }

  /** Removal drops exactly the entries with the id: every other post keeps
      its number of occurrences. */
  lemma {:induction false} RemoveByIdCounts(posts: seq<Post>, id: int, p: Post)
    ensures multiset(RemoveById(posts, id))[p] == if p.id == id then 0 else multiset(posts)[p]
  {
    if posts != [] {
      RemoveByIdCounts(posts[1..], id, p);
      assert posts == [posts[0]] + posts[1..];
      assert multiset(posts) == multiset{posts[0]} + multiset(posts[1..]);
    }
  }

  /** Removal distributes over concatenation, so the posts that stay keep
      their relative order. */
  lemma {:induction false} RemoveByIdAppend(xs: seq<Post>, ys: seq<Post>, id: int)
    ensures RemoveById(xs + ys, id) == RemoveById(xs, id) + RemoveById(ys, id)
  {
    if xs != [] {
      assert (xs + ys)[1..] == xs[1..] + ys;
      RemoveByIdAppend(xs[1..], ys, id);
    } else {
      assert xs + ys == ys;
    }
  }

  /** Removal shortens the list by exactly the number of posts with the id. */
  lemma {:induction false} RemoveByIdLength(posts: seq<Post>, id: int)
    ensures |RemoveById(posts, id)| == |posts| - CountId(posts, id)
  {
    if posts != [] {
      RemoveByIdLength(posts[1..], id);
    }
  }

  /** Removing an id that is not in the list is a no-op. */
  lemma {:induction false} RemoveAbsentId(posts: seq<Post>, id: int)
    requires CountId(posts, id) == 0
    ensures RemoveById(posts, id) == posts
  {
    if posts != [] {
      RemoveAbsentId(posts[1..], id);
    }
  }

  /** Removing the same id twice is the same as removing it once. */
  lemma {:induction false} RemoveIdempotent(posts: seq<Post>, id: int)
    ensures RemoveById(RemoveById(posts, id), id) == RemoveById(posts, id)
  {
    if posts != [] {
      RemoveIdempotent(posts[1..], id);
    }
  }

  /** A post prepended after a create and then deleted leaves the list as it
      was before the create, provided its id was new to the list. */
  lemma CreateThenDelete(created: Post, posts: seq<Post>)
    requires CountId(posts, created.id) == 0
    ensures RemoveById([created] + posts, created.id) == posts
  {
  }
}
