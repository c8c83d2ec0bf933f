/** How `Instance` reads the cloud's answers: every request method turns an
    HTTP status code and the `id` field of the answer's body into the
    operation id it returns, or `None`.  `start` and `stop` first look at the
    instance's status and send nothing when it is already what they would
    make it. */
module Responses {
  import opened Base

  /** What a guarded request comes to: nothing sent (the guard held), a request
      the API refused with `code`, or one it accepted, whose body held `op`. */
  datatype Decision = Skipped | Rejected(code: int) | Accepted(op: Option<OpId>)

  /** The value the method returns: the body's id on acceptance, else `None`. */
  function Returned(d: Decision): (r: Option<OpId>)
    ensures r != None ==> d.Accepted? && r == d.op
  {
    if d.Accepted? then d.op else None
  }

  /** A request the guard let through: accepted on 200 only. */
  function Answered(code: int, body: Option<OpId>): (d: Decision)
    ensures d.Accepted? <==> code == 200
    ensures d.Accepted? ==> d.op == body
    ensures d.Rejected? ==> d.code == code
    ensures d != Skipped
  {
    if code != 200 then Rejected(code) else Accepted(body)
  }

  /** `start` and `stop`: the request is sent only when the status is not
      already `target` (`RUNNING` for `start`, `STOPPED` for `stop`). */
  function Guarded(status: string, target: string, code: int, body: Option<OpId>): (d: Decision)
    ensures d == Skipped <==> status == target
    ensures d.Accepted? <==> status != target && code == 200
    ensures Returned(d) != None ==> status != target && code == 200 && Returned(d) == body
  {
    if status != target then Answered(code, body) else Skipped
  }

  /** What `create_snapshot` makes of its answer: a quota error (429), another
      refusal, or a started snapshot operation. */
  datatype Creation = QuotaExceeded | Refused(code: int) | Started(op: Option<OpId>)

  function CreateSnapshot(code: int, body: Option<OpId>): (c: Creation)
    ensures c == QuotaExceeded <==> code == 429
    ensures c.Refused? <==> code != 429 && code != 200
    ensures c.Started? <==> code == 200
    ensures c.Started? ==> c.op == body
  {
    if code == 429 then QuotaExceeded
    else if code != 200 then Refused(code)
    else Started(body)
  }

  /** `create_snapshot`'s return value: an id only for a started operation. */
  function CreatedId(c: Creation): (r: Option<OpId>)
    ensures r != None ==> c.Started? && r == c.op
  {
    if c.Started? then c.op else None
  }

  /** `delete_snapshot`: the body's id on 200, else `None`. */
  function DeleteSnapshot(code: int, body: Option<OpId>): (r: Option<OpId>)
    ensures r != None ==> code == 200 && r == body
    ensures code == 200 ==> r == body
  {
    Returned(Answered(code, body))
  }

  /** What `get_data` makes of its answer: the instance does not exist (404),
      another refusal, or the instance's description. */
  datatype Lookup<T> = NotFound | Failed(code: int) | Found(body: T)

  function GetData<T>(code: int, body: T): (l: Lookup<T>)
    ensures l == NotFound <==> code == 404
    ensures l.Failed? <==> code != 404 && code != 200
    ensures l.Found? <==> code == 200
    ensures l.Found? ==> l.body == body
  {
    if code == 404 then NotFound
    else if code != 200 then Failed(code)
    else Found(body)
  }

  /** `get_data`'s return value: the body on 200, `None` otherwise. */
  function Data<T>(l: Lookup<T>): (r: Option<T>)
    ensures r != None <==> l.Found?
    ensures r != None ==> r.value == l.body
  {
    if l.Found? then Some(l.body) else None
  }

  /** Every request method returns an operation id only when the API answered
      200, and `start`/`stop` send nothing in the state they would produce. */
  lemma IdsOnlyOn200(status: string, code: int, body: Option<OpId>)
    ensures Returned(Guarded(status, "RUNNING", code, body)) != None ==> code == 200
    ensures Returned(Guarded(status, "STOPPED", code, body)) != None ==> code == 200
    ensures CreatedId(CreateSnapshot(code, body)) != None ==> code == 200
    ensures DeleteSnapshot(code, body) != None ==> code == 200
    ensures status == "RUNNING" ==> Returned(Guarded(status, "RUNNING", code, body)) == None
    ensures status == "STOPPED" ==> Returned(Guarded(status, "STOPPED", code, body)) == None
  {
  }

  /** A quota error and any other refusal look alike to the caller: both give
      `None`. */
  lemma QuotaLooksLikeRefusal(code: int, body: Option<OpId>)
    requires code != 200
    ensures CreatedId(CreateSnapshot(code, body)) == None
  {
  }
}
