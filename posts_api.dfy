/** The collection endpoint of the posts API: GET lists the rows of the
    posts table, POST validates a new post and inserts it. The database is
    an abstract sequence of rows kept in the order the list query returns
    them, newest first; the id the store assigns to an insert is a
    parameter. */
module PostsApi {

  import opened Js
  import opened Options

  const StatusOk: int := 200
  const StatusCreated: int := 201
  const StatusBadRequest: int := 400
  const JsonContentType: string := "application/json"
  const MissingFieldsMessage: string := "All fields are required"

  /** A row of the posts table: the id assigned by the store and the three
      values bound to the INSERT. */
  datatype Row = Row(id: int, title: JsValue, content: JsValue, author: JsValue)

  /** `const { title, content, author } = await req.json()`: a property the
      body lacks reads as `Undefined`. */
  datatype PostBody = PostBody(title: JsValue, content: JsValue, author: JsValue)

  /** The JSON payloads the two handlers send. */
  datatype Body =
    | RowList(rows: seq<Row>)
    | ErrorMessage(error: string)
    | CreatedPost(id: int, title: JsValue, content: JsValue, author: JsValue)

  datatype Response = Response(status: int, contentType: string, body: Body)

  /** What a POST does: the response it sends, the parameters of the INSERT
      it issues (`None` when it issues none) and the store afterwards. */
  datatype PostOutcome = PostOutcome(response: Response, insert: Option<seq<JsValue>>, store: seq<Row>)

  /** `!title || !content || !author` is false: all three fields are truthy.
      There is no trimming, so a string of blanks passes. */
  predicate AllFieldsPresent(body: PostBody)
  {
    Truthy(body.title) && Truthy(body.content) && Truthy(body.author)
  }

  /** Every row holds three truthy values. */
  ghost predicate RowsFilled(store: seq<Row>)
  {
    forall i :: 0 <= i < |store| ==>
      Truthy(store[i].title) && Truthy(store[i].content) && Truthy(store[i].author)
  }

  /** No two rows share an id. */
  ghost predicate IdsUnique(store: seq<Row>)
  {
    forall i, j :: 0 <= i < j < |store| ==> store[i].id != store[j].id
  }

  predicate IdInUse(store: seq<Row>, id: int)
  {
    exists i :: 0 <= i < |store| && store[i].id == id
  }

  /** GET: status 200 and the rows as the store returns them. */
  function HandleGet(store: seq<Row>): (r: Response)
    ensures r.status == StatusOk && r.contentType == JsonContentType
    ensures r.body.RowList? && r.body.rows == store
  {
    Response(StatusOk, JsonContentType, RowList(store))
  }

  /** POST: a body lacking any of the three fields is refused with 400 before
      anything is written; otherwise the three values are inserted, in that
      order, and echoed back with the new id under 201. */
  function HandlePost(body: PostBody, store: seq<Row>, insertId: int): (out: PostOutcome)
    ensures out.response.contentType == JsonContentType
    ensures out.response.status == StatusBadRequest <==> !AllFieldsPresent(body)
    ensures !AllFieldsPresent(body) ==>
              && out.response.body == ErrorMessage(MissingFieldsMessage)
              && out.insert == None
              && out.store == store
    ensures AllFieldsPresent(body) ==>
              && out.response.status == StatusCreated
              && out.insert == Some([body.title, body.content, body.author])
              && out.store == [Row(insertId, body.title, body.content, body.author)] + store
              && out.response.body == CreatedPost(insertId, body.title, body.content, body.author)
  {
    if !Truthy(body.title) || !Truthy(body.content) || !Truthy(body.author) then
      PostOutcome(Response(StatusBadRequest, JsonContentType, ErrorMessage(MissingFieldsMessage)), None, store)
    else
      var params := [body.title, body.content, body.author];
      var row := Row(insertId, body.title, body.content, body.author);
      PostOutcome(Response(StatusCreated, JsonContentType, CreatedPost(insertId, body.title, body.content, body.author)),
                  Some(params), [row] + store)
  }

  /** The store only ever receives rows with three truthy fields: POST keeps
      that invariant whatever its body. */
  lemma PostKeepsRowsFilled(body: PostBody, store: seq<Row>, insertId: int)
    requires RowsFilled(store)
    ensures RowsFilled(HandlePost(body, store, insertId).store)
  {
  }

  /** With a store-assigned id that no row uses yet, ids stay unique. */
  lemma PostKeepsIdsUnique(body: PostBody, store: seq<Row>, insertId: int)
    requires IdsUnique(store)
    requires !IdInUse(store, insertId)
    ensures IdsUnique(HandlePost(body, store, insertId).store)
  {
  }

  /** A successful POST followed by GET lists first one row holding the new
      id and exactly the posted values, then the old rows. */
  lemma PostThenGet(body: PostBody, store: seq<Row>, insertId: int)
    requires HandlePost(body, store, insertId).response.status == StatusCreated
    ensures HandleGet(HandlePost(body, store, insertId).store).body.rows
            == [Row(insertId, body.title, body.content, body.author)] + store
  {
  }

  /** A refused POST followed by GET lists the rows as before. */
  lemma RefusedPostThenGet(body: PostBody, store: seq<Row>, insertId: int)
    requires HandlePost(body, store, insertId).response.status == StatusBadRequest
    ensures HandleGet(HandlePost(body, store, insertId).store).body.rows == store
  {
  }
}
