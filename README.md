# Post manager and posts API, modelled in Dafny

This project models the blog-post part of a small Next.js application:

- the client-side post manager page. It keeps the list of posts, a three-field
  composer (title, content, author), the post under edit and the post being
  viewed, two progress flags and a tab filter, and it updates them in its
  event handlers;
- the collection endpoint of the posts API. `GET` lists the rows of the
  `posts` table. `POST` validates a new post, inserts it and echoes it with
  the id the store assigned.

Files and modules:

- `options.dfy` (`Options`): the optional value used for JavaScript's `null`.
- `js.dfy` (`Js`): JavaScript values as a request body carries them, their
  truthiness (the `!x` tests), and `String.prototype.trim` with the
  ECMAScript set of whitespace and line-terminator code points.
- `posts.dfy` (`Posts`): the page's `Post` record and the three pure list
  computations of the page: `posts.map(...)` in update (`ReplaceById`),
  `posts.filter(...)` in delete (`RemoveById`) and `filteredPosts`
  (`Visible`). Lemmas give each an independent characterisation.
- `posts_api.dfy` (`PostsApi`): the `GET` and `POST` handlers of
  `app/api/posts/route.js` as functions. The database is an abstract
  sequence of rows in the list query's order, newest first, and the id the
  store assigns to an insert is a parameter.
  `POST` returns the response, the parameters of the INSERT it issued (if any)
  and the store afterwards.
- `post_page.dfy` (`PostPage`): the page component as the class
  `PostManager`. Its fields are the component's `useState` slots, and each
  handler is a method. Each handler runs as one step from the state it was
  invoked in. What the outside world answers is a parameter: the post the
  server returns, whether a request failed, and the user's answer to
  `confirm`. Each handler returns the request it sent, if any, so "no
  network call" is the result `None`. The effects of create and update are
  two-state predicates (`CreateEffect`, `UpdateEffect`) shared with
  `HandleSubmit`. The module also holds lemmas that relate the composer's
  guard to the POST handler's check, and a few client sessions whose
  assertions follow from the handlers' contracts.

Behaviour of the program that the model makes explicit:

- The POST handler's error message says "All fields are required", and the
  page trims each field before its own check (app/post/page.jsx:43). But the
  handler only tests truthiness (app/api/posts/route.js:19), without
  trimming and without checking the type. So blank strings are stored, and
  so are non-string truthy values such as numbers.
  `BlankFieldsOnlyRefusedByComposer` proves that any composer with a blank
  title and non-empty other fields is refused by the page but answered 201
  by the handler.
- `viewPost` (app/post/page.jsx:137-140) ends edit mode but keeps the
  composer's text. A submit after that sends a create request with the
  edited post's fields (`ViewDuringEditSession`).
- The page never edits a post and views one at the same time: `startEdit`
  closes the view, `viewPost` ends the edit, `cancelEdit` and `closeView`
  end one of the two, and no other handler opens either. `PostManager`
  states this as `ExclusiveModes()`, which the constructor establishes and
  every handler keeps.
- The post the page prepends after a create is the handler's echo. It has no
  `created_at`, so `Post.createdAt` is optional.
- `updatePost` dereferences `editingPost.id` inside its `try`. If it were
  called with no post under edit and a filled composer, the `TypeError`
  would be caught like a failed request: nothing is sent, and only
  `isSubmitting` is touched. `UpdateEffect` models that branch. The page
  itself only reaches `updatePost` through `handleSubmit` with a post under
  edit.

## Model

| member | source | states |
|---|---|---|
| Js.TrimStartShape | app/post/page.jsx:43 | trimming the start keeps exactly the suffix of the string from its first non-whitespace character: what is dropped is all whitespace, and what is kept does not start with whitespace |
| Js.TrimEndShape | app/post/page.jsx:43 | trimming the end keeps exactly the prefix up to the last non-whitespace character: what is dropped is all whitespace, and what is kept does not end with whitespace |
| Js.TrimShape | app/post/page.jsx:43 | `trim` returns a string no longer than its input that neither starts nor ends with whitespace |
| Js.TrimEmptyIffBlank | app/post/page.jsx:43 | `s.trim()` is empty if and only if every character of `s` is whitespace |
| Js.TrimmedTruthy | app/post/page.jsx:66 | `!s.trim()` is false exactly when `s` has a non-whitespace character, and then `s` itself is truthy |
| Posts.ReplaceById | app/post/page.jsx:75-79 | the update's `map` keeps the length, and at every index yields the old post with its three editable fields rewritten when its id matches, else the old post unchanged |
| Posts.ReplaceAbsentId | app/post/page.jsx:75-79 | updating an id that no listed post has leaves the list unchanged |
| Posts.ReplaceThenRemove | app/post/page.jsx:75-79 | an update changes only the posts with its id: dropping that id before or after the update gives the same list |
| Posts.ReplaceIdempotent | app/post/page.jsx:75-79 | applying the same update twice equals applying it once |
| Posts.RemoveById | app/post/page.jsx:103 | the delete's `filter` keeps a post if and only if it was listed and its id differs from the deleted id, and never lengthens the list |
| Posts.RemoveByIdCounts | app/post/page.jsx:103 | after the filter, a post with the deleted id occurs zero times and every other post occurs as often as before |
| Posts.RemoveByIdAppend | app/post/page.jsx:103 | the filter distributes over concatenation, so the posts that stay keep their original order |
| Posts.RemoveByIdLength | app/post/page.jsx:103 | the filter shortens the list by exactly the number of posts with the deleted id |
| Posts.RemoveAbsentId | app/post/page.jsx:103 | deleting an id that no listed post has leaves the list unchanged |
| Posts.RemoveIdempotent | app/post/page.jsx:103 | deleting the same id twice equals deleting it once |
| Posts.CreateThenDelete | app/post/page.jsx:51-103 | prepending a created post with a new id and then deleting that id gives back the list from before the create |
| Posts.Visible | app/post/page.jsx:161-163 | `filteredPosts` is always a prefix of `posts`; on the `'recent'` tab it has min(5, \|posts\|) entries, on any other tab it is `posts` itself |
| PostsApi.HandleGet | app/api/posts/route.js:4-12 | GET answers 200 with content type JSON and the store's rows unchanged |
| PostsApi.HandlePost | app/api/posts/route.js:15-38 | POST answers 400 with `{error: "All fields are required"}`, issues no INSERT and leaves the store unchanged if and only if a field is falsy; otherwise it issues an INSERT with parameters exactly `[title, content, author]`, adds that row under the new id at the head of the list order, and answers 201 echoing the id and the three values unchanged |
| PostsApi.PostKeepsRowsFilled | app/api/posts/route.js:19-29 | if every stored row has three truthy fields, that still holds after any POST |
| PostsApi.PostKeepsIdsUnique | app/api/posts/route.js:26-32 | if the store's ids are unique and the assigned id is unused, ids stay unique after a POST |
| PostsApi.PostThenGet | app/api/posts/route.js:4-37 | after a 201, GET lists first one row with the new id and exactly the posted values, then the old rows |
| PostsApi.RefusedPostThenGet | app/api/posts/route.js:4-24 | after a 400, GET lists exactly the rows from before |
| PostPage.CreatedFromResponse | app/post/page.jsx:50-51 | the post kept from the create response exists exactly when the body echoes a post with string fields; it is then exactly the echoed id, title, content and author, with no `created_at` |
| PostPage.ComposerAcceptedByServer | app/api/posts/route.js:19-37 | whatever passes the composer's trimmed check passes the POST handler with 201, and the post the page then prepends has the new id and exactly the composer's fields |
| PostPage.BlankFieldsOnlyRefusedByComposer | app/api/posts/route.js:19 | the converse fails: for every title made only of whitespace and any non-empty content and author, the composer refuses the strings but the POST handler answers 201 |
| PostPage.PostManager.constructor | app/post/page.jsx:7-15 | the initial state: no posts, empty composer, not submitting, tab `'all'`, no edit, no view, no deletion in progress, so edit mode and the view are not open together |
| PostPage.PostManager.FetchPosts | app/post/page.jsx:18-26 | the list becomes the server's list; after a failed fetch it stays as it was; nothing else changes |
| PostPage.PostManager.CreatePost | app/post/page.jsx:42-62 | a blank field after trimming means no request and no change. Otherwise it sends exactly the composer's fields. On success the list becomes the returned post followed by the old list and the composer is cleared. On failure the list and composer are kept. `isSubmitting` ends false, and edit, view, deletion flag and tab are untouched |
| PostPage.PostManager.UpdatePost | app/post/page.jsx:65-92 | a blank field means no request and no change. Otherwise it sends the edited post's id with the composer's fields. On success the list becomes `ReplaceById` of the old list, edit mode ends and the composer is cleared. On failure the list, the edit and the composer are kept. `isSubmitting` ends false, and view, deletion flag and tab are untouched |
| PostPage.PostManager.DeletePost | app/post/page.jsx:95-117 | declining the confirm changes nothing and sends nothing. Otherwise it sends the delete. On success the list becomes `RemoveById` of the old list, and the view closes if and only if it shows a post with that id. On failure the list and view are kept. `isDeleting` ends cleared |
| PostPage.PostManager.StartEdit | app/post/page.jsx:120-126 | the post goes under edit, its title, content and author are copied into the composer, and any view is closed; the list is untouched |
| PostPage.PostManager.CancelEdit | app/post/page.jsx:129-134 | edit mode ends and the composer is cleared; the list and the view are untouched |
| PostPage.PostManager.ViewPost | app/post/page.jsx:137-140 | the view opens on the post and edit mode ends; the composer strings and the list are untouched |
| PostPage.PostManager.CloseView | app/post/page.jsx:143-145 | the view closes and nothing else changes |
| PostPage.PostManager.HandleSubmit | app/post/page.jsx:148-154 | with a post under edit it has exactly the effect of `UpdatePost`, otherwise exactly that of `CreatePost` |
| PostPage.PostManager.SelectTab | app/post/page.jsx:305-314 | the tab buttons set the active tab and nothing else |
| PostPage.PostManager.ChangeTitle | app/post/page.jsx:218 | typing sets the title and nothing else |
| PostPage.PostManager.ChangeContent | app/post/page.jsx:230 | typing sets the content and nothing else |
| PostPage.PostManager.ChangeAuthor | app/post/page.jsx:246 | typing sets the author and nothing else |

## Left out

- Rendering, styling, icons, and the `alert` and `console.error` calls: these are user interface only. `confirm` is the boolean parameter of `DeletePost`.
- `fetchPostById` (app/post/page.jsx:30-38) is defined but never called.
- The reload button calls `getRecords()`, which is not defined anywhere (app/post/page.jsx:529); it is dead user interface.
- React's asynchronous semantics: each handler is one atomic step from the state it was invoked in. This leaves out the `useEffect` timing, state-update batching, and requests that overlap. `isSubmitting` and `isDeleting` are set and cleared inside that one step.
- The network itself: every request's outcome is a parameter. The single-post GET, PUT and DELETE handlers (`app/api/posts/[id]/route.js`) reach the page only as the success flag of `UpdatePost` and `DeletePost`.
- The database module `app/lib/db` is not part of this model. So `connect()` and its failures (an unhandled rejection that the framework turns into a 500), SQL typing of the bound values, `created_at`, and the `ORDER BY created_at DESC` of the list query are left out. The store is an abstract sequence of rows kept in the list query's order, newest first. An insert puts its row at the head, which assumes each insert's `created_at` is the latest, and GET returns the sequence as it is.
- `PostsApi.HandlePost`: a body that is not JSON, or that is `null`, makes `req.json()` or the destructuring throw, which also leads to a 500. The model starts from the already destructured fields.
- JSON serialisation of the response bodies: the bodies are structured values.
- The todo page and API, the diagnostic `dbtest` and `hello` endpoints, and the axios configuration in `app/lib/api.js`: these are outside the post manager and the posts API.
