/** The post manager page: its component state as the fields of a class and
    each event handler as a method. A handler runs as one step from the state
    it was invoked in; what the network or the user answers (the post the
    server returns, whether a request failed, whether `confirm` was accepted)
    is a parameter, and each handler returns the request it sent, if any. */
module PostPage {

  import opened Js
  import opened Options
  import opened Posts
  import PostsApi

  /** The requests the page sends to the posts API. */
  datatype Request =
    | CreateRequest(title: string, content: string, author: string)
    | UpdateRequest(id: int, title: string, content: string, author: string)
    | DeleteRequest(id: int)

  /** The composer guard `!title.trim() || !content.trim() || !author.trim()`
      is false: each field still has a character after trimming. */
  predicate ComposerFilled(title: string, content: string, author: string)
  {
    Truthy(Str(Trim(title))) && Truthy(Str(Trim(content))) && Truthy(Str(Trim(author)))
  }

  /** The post the page keeps from a 201 answer to its create request:
      `res.data`, which carries no `created_at`. */
  function CreatedFromResponse(response: PostsApi.Response): (p: Option<Post>)
    ensures p.Some? <==> response.body.CreatedPost? && response.body.title.Str?
                         && response.body.content.Str? && response.body.author.Str?
    ensures p.Some? ==> p.value == Post(response.body.id, response.body.title.s, response.body.content.s,
                                        response.body.author.s, None)
  {
    match response.body
    case CreatedPost(id, Str(t), Str(c), Str(a)) => Some(Post(id, t, c, a, None))
    case _ => None
  }

  class PostManager {
    var posts: seq<Post>
    var title: string
    var content: string
    var author: string
    var isSubmitting: bool
    var activeTab: string
    var editingPost: Option<Post>
    var viewingPost: Option<Post>
    var isDeleting: Option<int>

    /** The page never edits a post and shows a post's view at the same
        time: starting an edit closes the view and opening a view ends the
        edit. */
    predicate ExclusiveModes()
      reads this
    {
      !(editingPost.Some? && viewingPost.Some?)
    }

    /** The initial state of every `useState`. */
    constructor ()
      ensures posts == [] && title == "" && content == "" && author == ""
      ensures !isSubmitting && activeTab == "all"
      ensures editingPost == None && viewingPost == None && isDeleting == None
      ensures ExclusiveModes()
    {
      posts := [];
      title, content, author := "", "", "";
      isSubmitting := false;
      activeTab := "all";
      editingPost, viewingPost := None, None;
      isDeleting := None;
    }

    /** `fetchPosts`, run once on mount: the list becomes the server's list;
        a failed fetch leaves the old list. */
    method FetchPosts(response: Option<seq<Post>>)
      requires ExclusiveModes()
      modifies this`posts
      ensures posts == if response.Some? then response.value else old(posts)
      ensures ExclusiveModes()
    {
      match response {
        case Some(list) => posts := list;
        case None =>
      }
    }

    /** What `createPost` does, as a relation between the state it starts
        from and the state it leaves: a blank field stops it before any
        request and any change; otherwise it sends the composer's fields, and
        on success prepends the returned post and clears the composer; the
        list and composer are kept on failure; `isSubmitting` ends false. */
    twostate predicate CreateEffect(response: Option<Post>, new request: Option<Request>)
      reads this
    {
      && editingPost == old(editingPost)
      && if !ComposerFilled(old(title), old(content), old(author)) then
           && request == None
           && posts == old(posts)
           && title == old(title) && content == old(content) && author == old(author)
           && isSubmitting == old(isSubmitting)
         else
           && request == Some(CreateRequest(old(title), old(content), old(author)))
           && !isSubmitting
           && match response
              case Some(created) =>
                posts == [created] + old(posts) && title == "" && content == "" && author == ""
              case None =>
                posts == old(posts) && title == old(title) && content == old(content) && author == old(author)
    }

    /** What `updatePost` does: a blank field stops it before any request and
        any change. With no post under edit, reading `editingPost.id` throws
        inside the `try`, so nothing is sent and only `isSubmitting` is
        touched. Otherwise it sends the post's id and the composer's fields,
        and on success rewrites the entries with that id, leaves edit mode and
        clears the composer; on failure the list, the edit and the composer
        are kept. `isSubmitting` ends false. */
    twostate predicate UpdateEffect(ok: bool, new request: Option<Request>)
      reads this
    {
      if !ComposerFilled(old(title), old(content), old(author)) then
        && request == None
        && posts == old(posts) && editingPost == old(editingPost)
        && title == old(title) && content == old(content) && author == old(author)
        && isSubmitting == old(isSubmitting)
      else
        && !isSubmitting
        && match old(editingPost)
           case None =>
             && request == None
             && posts == old(posts) && editingPost == None
             && title == old(title) && content == old(content) && author == old(author)
           case Some(edited) =>
             && request == Some(UpdateRequest(edited.id, old(title), old(content), old(author)))
             && if ok then
                  && posts == ReplaceById(old(posts), edited.id, old(title), old(content), old(author))
                  && editingPost == None
                  && title == "" && content == "" && author == ""
                else
                  && posts == old(posts) && editingPost == old(editingPost)
                  && title == old(title) && content == old(content) && author == old(author)
    }

    /** `createPost`; `response` is the post the server returns, `None` when
        the request fails. */
    method CreatePost(response: Option<Post>) returns (request: Option<Request>)
      requires ExclusiveModes()
      modifies this`posts, this`title, this`content, this`author, this`isSubmitting
      ensures CreateEffect(response, request)
      ensures ExclusiveModes()
    {
      if !ComposerFilled(title, content, author) {
        return None;
      }
      isSubmitting := true;
      request := Some(CreateRequest(title, content, author));
      match response {
        case Some(created) =>
          posts := [created] + posts;
          title := "";
          content := "";
          author := "";
        case None =>
      }
      isSubmitting := false;
    }

    /** `updatePost`; `ok` says whether the PUT succeeded. */
    method UpdatePost(ok: bool) returns (request: Option<Request>)
      requires ExclusiveModes()
      modifies this`posts, this`title, this`content, this`author, this`isSubmitting, this`editingPost
      ensures UpdateEffect(ok, request)
      ensures ExclusiveModes()
    {
      if !ComposerFilled(title, content, author) {
        return None;
      }
      isSubmitting := true;
      request := None;
      match editingPost {
        case None =>
        case Some(edited) =>
          request := Some(UpdateRequest(edited.id, title, content, author));
          if ok {
            posts := ReplaceById(posts, edited.id, title, content, author);
            editingPost := None;
            title := "";
            content := "";
            author := "";
          }
      }
      isSubmitting := false;
    }

    /** `deletePost(id)`; `confirmed` is the user's answer to `confirm`, `ok`
        whether the DELETE succeeded. Declining changes nothing; a success
        drops the posts with that id and closes the view exactly when it shows
        a post with that id; a failure keeps the list and the view.
        `isDeleting` ends cleared once a request was sent. */
    method DeletePost(id: int, confirmed: bool, ok: bool) returns (request: Option<Request>)
      requires ExclusiveModes()
      modifies this`posts, this`viewingPost, this`isDeleting
      ensures !confirmed ==>
                request == None && posts == old(posts)
                && viewingPost == old(viewingPost) && isDeleting == old(isDeleting)
      ensures confirmed ==> request == Some(DeleteRequest(id)) && isDeleting == None
      ensures confirmed && ok ==>
                && posts == RemoveById(old(posts), id)
                && viewingPost == if old(viewingPost).Some? && old(viewingPost).value.id == id
                                  then None else old(viewingPost)
      ensures confirmed && !ok ==> posts == old(posts) && viewingPost == old(viewingPost)
      ensures ExclusiveModes()
    {
      if !confirmed {
        return None;
      }
      isDeleting := Some(id);
      request := Some(DeleteRequest(id));
      if ok {
        posts := RemoveById(posts, id);
        if viewingPost.Some? && viewingPost.value.id == id {
          viewingPost := None;
        }
      }
      isDeleting := None;
    }

    /** `startEdit(post)`: edit mode on that post, its fields copied into
        the composer, any open view closed. */
    method StartEdit(post: Post)
      modifies this`editingPost, this`title, this`content, this`author, this`viewingPost
      ensures editingPost == Some(post) && viewingPost == None
      ensures title == post.title && content == post.content && author == post.author
      ensures ExclusiveModes()
    {
      editingPost := Some(post);
      title := post.title;
      content := post.content;
      author := post.author;
      viewingPost := None;
    }

    /** `cancelEdit`: leaves edit mode and clears the composer. */
    method CancelEdit()
      modifies this`editingPost, this`title, this`content, this`author
      ensures editingPost == None && title == "" && content == "" && author == ""
      ensures ExclusiveModes()
    {
      editingPost := None;
      title := "";
      content := "";
      author := "";
    }

    /** `viewPost(post)`: opens the view on that post and leaves edit mode,
        keeping whatever the composer holds. */
    method ViewPost(post: Post)
      modifies this`viewingPost, this`editingPost
      ensures viewingPost == Some(post) && editingPost == None
      ensures ExclusiveModes()
    {
      viewingPost := Some(post);
      editingPost := None;
    }

    /** `closeView`. */
    method CloseView()
      modifies this`viewingPost
      ensures viewingPost == None
      ensures ExclusiveModes()
    {
      viewingPost := None;
    }

    /** `handleSubmit`: update when a post is under edit, create otherwise. */
    method HandleSubmit(createResponse: Option<Post>, updateOk: bool) returns (request: Option<Request>)
      requires ExclusiveModes()
      modifies this`posts, this`title, this`content, this`author, this`isSubmitting, this`editingPost
      ensures old(editingPost).Some? ==> UpdateEffect(updateOk, request)
      ensures old(editingPost).None? ==> CreateEffect(createResponse, request)
      ensures ExclusiveModes()
    {
      if editingPost.Some? {
        request := UpdatePost(updateOk);
      } else {
        request := CreatePost(createResponse);
      }
    }

    /** The "All Posts" and "Recent" tab buttons. */
    method SelectTab(tab: string)
      requires ExclusiveModes()
      modifies this`activeTab
      ensures activeTab == tab
      ensures ExclusiveModes()
    {
      activeTab := tab;
    }

    /** Typing into the title input. */
    method ChangeTitle(value: string)
      requires ExclusiveModes()
      modifies this`title
      ensures title == value
      ensures ExclusiveModes()
    {
      title := value;
    }

    /** Typing into the content textarea. */
    method ChangeContent(value: string)
      requires ExclusiveModes()
      modifies this`content
      ensures content == value
      ensures ExclusiveModes()
    {
      content := value;
    }

    /** Typing into the author input. */
    method ChangeAuthor(value: string)
      requires ExclusiveModes()
      modifies this`author
      ensures author == value
      ensures ExclusiveModes()
    {
      author := value;
    }
  }

  /** Whatever passes the composer guard passes the POST handler's check,
      and the post the page then prepends carries the new id and exactly the
      composer's fields. */
  lemma ComposerAcceptedByServer(title: string, content: string, author: string, store: seq<PostsApi.Row>, insertId: int)
    requires ComposerFilled(title, content, author)
    ensures PostsApi.HandlePost(PostsApi.PostBody(Str(title), Str(content), Str(author)), store, insertId).response.status
            == PostsApi.StatusCreated
    ensures CreatedFromResponse(PostsApi.HandlePost(PostsApi.PostBody(Str(title), Str(content), Str(author)), store, insertId).response)
            == Some(Post(insertId, title, content, author, None))
  {
  }

  /** The converse fails: a composer whose title is blank is refused by
      the page, but the same strings are accepted and stored by the POST
      handler, which does not trim. */
  lemma BlankFieldsOnlyRefusedByComposer(title: string, content: string, author: string,
                                         store: seq<PostsApi.Row>, insertId: int)
    requires |title| > 0 && AllWhitespace(title) && |content| > 0 && |author| > 0
    ensures !ComposerFilled(title, content, author)
    ensures PostsApi.HandlePost(PostsApi.PostBody(Str(title), Str(content), Str(author)), store, insertId).response.status
            == PostsApi.StatusCreated
  {
    TrimEmptyIffBlank(title);
  }

  /** Submitting the composer with an empty author sends nothing and
      leaves the list as it was. */
  method BlankAuthorSession(title: string, content: string, response: Option<Post>)
  {
    var page := new PostManager();
    page.ChangeTitle(title);
    page.ChangeContent(content);
    var request := page.HandleSubmit(response, true);
    assert request == None && page.posts == [];
  }

  /** A filled composer creates the post the server returns at the head of
      the list and clears the composer. */
  method CreateSession(title: string, content: string, author: string, created: Post)
    requires ComposerFilled(title, content, author)
  {
    var page := new PostManager();
    page.ChangeTitle(title);
    page.ChangeContent(content);
    page.ChangeAuthor(author);
    var request := page.HandleSubmit(Some(created), true);
    assert request == Some(CreateRequest(title, content, author));
    assert page.posts == [created] && page.title == "";
  }

  /** Editing the title of the only listed post updates it in place;
      deleting it then empties the list. */
  method EditDeleteSession(listed: Post, newTitle: string)
    requires ComposerFilled(newTitle, listed.content, listed.author)
  {
    var page := new PostManager();
    page.FetchPosts(Some([listed]));
    page.StartEdit(listed);
    page.ChangeTitle(newTitle);
    var request := page.HandleSubmit(None, true);
    assert request == Some(UpdateRequest(listed.id, newTitle, listed.content, listed.author));
    assert page.posts == ReplaceById([listed], listed.id, newTitle, listed.content, listed.author);
    assert page.posts == [listed.(title := newTitle)] && page.editingPost == None;

    request := page.DeletePost(listed.id, true, true);
    assert page.posts == RemoveById([listed.(title := newTitle)], listed.id);
    assert page.posts == [];
  }

  /** Opening a view while editing leaves edit mode but keeps the composer
      filled with the edited post's fields, so the next submit sends a create
      request carrying them instead of an update. */
  method ViewDuringEditSession(edited: Post, viewed: Post, created: Post)
    requires ComposerFilled(edited.title, edited.content, edited.author)
  {
    var page := new PostManager();
    page.FetchPosts(Some([edited]));
    page.StartEdit(edited);
    page.ViewPost(viewed);
    assert page.editingPost == None && page.title == edited.title;
    var request := page.HandleSubmit(Some(created), true);
    assert request == Some(CreateRequest(edited.title, edited.content, edited.author));
    assert page.posts == [created, edited];
  }
}
