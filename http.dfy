/** What the screens send through the shared REST client and what comes back.
    The client itself (axios, the base URL and the JSON content-type header) is
    not modelled: each request is recorded as a descriptor, and the server's
    answer is an input of the handler that issued it. */
module Http {
  import opened Entities
  import opened JsStrings

  /** A decoded response body. `Absent` is undefined or null; `Structured` is
      any object or array, kept as its JSON text. */
  datatype Body = Absent | Text(s: string) | Num(n: int) | Flag(b: bool) | Structured(json: string)

  /** JavaScript truthiness of a body: the empty string, 0, false, null and
      undefined are falsy, every object is truthy. */
  predicate Truthy(b: Body) {
    match b
    case Absent => false
    case Text(s) => s != ""
    case Num(n) => n != 0
    case Flag(v) => v
    case Structured(_) => true
  }

  /** `data && typeof data === 'string'`: a server message that can be shown. */
  predicate IsMessage(b: Body) {
    b.Text? && b.s != ""
  }

  /** A rejected request: either no response reached the client, or the
      server answered with a status and a body. */
  datatype HttpError = NoResponse | ErrorResponse(status: int, data: Body)

  /** The settled value of one request. */
  datatype Outcome<+T> = Ok(data: T) | Err(error: HttpError)

  datatype Verb = Get | Post | Put | Delete

  datatype Payload = NoPayload | AlunoBody(aluno: AlunoDto) | CursoBody(curso: CursoDto) | MatriculaBody(matricula: MatricularDto)

  /** One call on the REST client: verb, path relative to the base URL, body. */
  datatype Request = Request(verb: Verb, path: string, payload: Payload)

  datatype Variant = Default | Destructive

  /** A notification raised with toast({title, description, variant}). */
  datatype Toast = Toast(title: string, description: Body, variant: Variant)

  /** `${collection}/${id}`: the path of one item of a collection. */
  function ItemPath(collection: string, id: int): string {
    collection + "/" + IntToString(id)
  }

  /** An item path is the collection, a '/', and text that parses back to the id. */
  lemma ItemPathParsesBack(collection: string, id: int)
    ensures |ItemPath(collection, id)| > |collection| + 1
    ensures ItemPath(collection, id)[..|collection| + 1] == collection + "/"
    ensures ParseInt(ItemPath(collection, id)[|collection| + 1..]) == Some(id)
  {
    var p := ItemPath(collection, id);
    assert p[..|collection| + 1] == collection + "/";
    assert p[|collection| + 1..] == IntToString(id);
    ParseIntOfToString(id);
  }

  /** Two item paths of one collection are equal only for equal ids. */
  lemma ItemPathInjective(collection: string, id1: int, id2: int)
    requires ItemPath(collection, id1) == ItemPath(collection, id2)
    ensures id1 == id2
  {
    ItemPathParsesBack(collection, id1);
    ItemPathParsesBack(collection, id2);
  }

  /** The id of the item being edited, if any: `key` reads the id of an item. */
  function IdOf<T>(editing: Option<T>, key: T -> int): (id: Option<int>)
    ensures id.Some? <==> editing.Some?
    ensures editing.Some? ==> id.value == key(editing.value)
  {
    match editing
    case None => None
    case Some(item) => Some(key(item))
  }

  /** The save request of the student and course forms: PUT to the item being
      edited, or POST to the collection when nothing is being edited; the body
      is the same either way. */
  function SaveRequest(collection: string, editingId: Option<int>, payload: Payload): (req: Request)
    ensures req.payload == payload
    ensures req.verb == Put <==> editingId.Some?
    ensures req.verb == Post <==> editingId.None?
    ensures editingId.None? ==> req.path == collection
    ensures editingId.Some? ==> req.path == ItemPath(collection, editingId.value)
  {
    match editingId
    case None => Request(Post, collection, payload)
    case Some(id) => Request(Put, ItemPath(collection, id), payload)
  }
}
