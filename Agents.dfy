/** The agent registry routes: list, create, update and delete, each behind the session check
    and each scoped to the caller's `user_id`. `env_vars` is kept as the JSON value submitted. */
module Agents {
  import opened Common
  import opened Tables
  import opened Store

  const MISSING_FIELDS: string := "缺少必要字段"
  const NAME_EXISTS: string := "Agent名称已存在"
  const CREATED: string := "创建成功"
  const UPDATED: string := "更新成功"
  const UPDATE_NOT_FOUND: string := "Agent不存在或无权限更新"
  const UPDATE_FAILED: string := "更新失败"
  const DELETED: string := "删除成功"
  const DELETE_NOT_FOUND: string := "Agent不存在或无权限删除"

  /** The JSON body of a create or update request; None is an absent field. */
  datatype AgentInput = AgentInput(name: Option<string>, envVars: Option<Json>)

  /** `name && envVars`: any truthy value passes, an empty object `{}` included; the server
      does not check that `envVars` is an object. */
  predicate Complete(req: AgentInput) {
    Present(req.name) && PresentJson(req.envVars)
  }

  /** GET /: exactly the caller's agents, newest first, each with the `env_vars` value it was
      stored with; the store is only read. */
  method List(st: Store, header: Option<string>) returns (resp: Response)
    ensures st.Auth(header).Err? ==> resp == st.Auth(header).error
    ensures st.Auth(header).Ok? ==>
      resp.status == 200 && resp.body.AgentList?
      && (forall a :: a in resp.body.agents <==> a in st.agents && a.userId == st.Auth(header).value.id)
    ensures st.Auth(header).Ok? && IdsIncreasing(st.agents) ==>
      forall i, j :: 0 <= i < j < |resp.body.agents| ==> resp.body.agents[i].id > resp.body.agents[j].id
  {
    var auth := st.Auth(header);
    if auth.Err? {
      return auth.error;
    }
    resp := Response(200, AgentList(Listing(st.agents, auth.value.id)));
  }

  /** POST /. A falsy name or envVars is a 400, a name the caller already uses is a 400, and
      neither adds a row; otherwise one row owned by the caller is appended holding `envVars`,
      and its new id is returned. */
  method Create(st: Store, header: Option<string>, req: AgentInput) returns (resp: Response)
    requires st.Valid()
    modifies st
    ensures st.Valid()
    ensures st.users == old(st.users) && st.sessions == old(st.sessions)
    ensures st.platforms == old(st.platforms) && st.now == old(st.now)
    ensures old(st.Auth(header)).Err? ==>
      resp == old(st.Auth(header)).error && st.agents == old(st.agents) && st.nextId == old(st.nextId)
    ensures old(st.Auth(header)).Ok? && !Complete(req) ==>
      resp == Response(400, Error(MISSING_FIELDS)) && st.agents == old(st.agents) && st.nextId == old(st.nextId)
    ensures old(st.Auth(header)).Ok? && Complete(req) ==>
      var uid := old(st.Auth(header)).value.id;
      if OwnsName(old(st.agents), uid, req.name.value) then
        resp == Response(400, Error(NAME_EXISTS)) && st.agents == old(st.agents) && st.nextId == old(st.nextId)
      else
        resp == Response(200, Created(old(st.nextId), CREATED))
        && st.agents == old(st.agents) + [Row(old(st.nextId), uid, req.name.value, req.envVars.value)]
        && st.nextId == old(st.nextId) + 1
  {
    var auth := st.Auth(header);
    if auth.Err? {
      return auth.error;
    }
    var uid := auth.value.id;
    if !Complete(req) {
      return Response(400, Error(MISSING_FIELDS));
    }
    if OwnsName(st.agents, uid, req.name.value) {
      return Response(400, Error(NAME_EXISTS));
    }
    var row := Row(st.nextId, uid, req.name.value, req.envVars.value);
    InsertWellFormed(st.agents, st.nextId, row);
    st.agents := st.agents + [row];
    st.nextId := st.nextId + 1;
    resp := Response(200, Created(row.id, CREATED));
  }

  /** PUT /:id. A falsy name or envVars is a 400. There is no existence check first: the
      statement itself decides, and when no row has both that id and the caller as owner
      (another user's row or no row at all) the answer is a 404. A name used by another of the
      caller's rows makes the statement fail, a 400. Otherwise only that row changes. */
  method Update(st: Store, header: Option<string>, id: int, req: AgentInput) returns (resp: Response)
    requires st.Valid()
    modifies st
    ensures st.Valid()
    ensures st.users == old(st.users) && st.sessions == old(st.sessions) && st.platforms == old(st.platforms)
    ensures st.nextId == old(st.nextId) && st.now == old(st.now)
    ensures old(st.Auth(header)).Err? ==> resp == old(st.Auth(header)).error && st.agents == old(st.agents)
    ensures old(st.Auth(header)).Ok? && !Complete(req) ==>
      resp == Response(400, Error(MISSING_FIELDS)) && st.agents == old(st.agents)
    ensures old(st.Auth(header)).Ok? && Complete(req) ==>
      var uid := old(st.Auth(header)).value.id;
      if FindRow(old(st.agents), id, uid).None? then
        resp == Response(404, Error(UPDATE_NOT_FOUND)) && st.agents == old(st.agents)
      else if NameClash(old(st.agents), id, uid, req.name.value) then
        resp == Response(400, Error(UPDATE_FAILED)) && st.agents == old(st.agents)
      else
        resp == Response(200, Message(UPDATED))
        && st.agents == UpdateWhere(old(st.agents), id, uid, req.name.value, req.envVars.value)
  {
    var auth := st.Auth(header);
    if auth.Err? {
      return auth.error;
    }
    var uid := auth.value.id;
    if !Complete(req) {
      return Response(400, Error(MISSING_FIELDS));
    }
    var changes := CountWhere(st.agents, id, uid);
    CountWhereFind(st.agents, id, uid);
    if changes > 0 {
      // the constraint is checked only on a row the statement actually rewrites
      if NameClash(st.agents, id, uid, req.name.value) {
        return Response(400, Error(UPDATE_FAILED));
      }
      UpdateWellFormed(st.agents, st.nextId, id, uid, req.name.value, req.envVars.value);
    } else {
      UpdateNoMatch(st.agents, id, uid, req.name.value, req.envVars.value);
    }
    st.agents := UpdateWhere(st.agents, id, uid, req.name.value, req.envVars.value);
    if changes == 0 {
      return Response(404, Error(UPDATE_NOT_FOUND));
    }
    resp := Response(200, Message(UPDATED));
  }

  /** DELETE /:id. Removes the row only when both its id and its owner match; when no row
      matched, a 404. */
  method Delete(st: Store, header: Option<string>, id: int) returns (resp: Response)
    requires st.Valid()
    modifies st
    ensures st.Valid()
    ensures st.users == old(st.users) && st.sessions == old(st.sessions) && st.platforms == old(st.platforms)
    ensures st.nextId == old(st.nextId) && st.now == old(st.now)
    ensures old(st.Auth(header)).Err? ==> resp == old(st.Auth(header)).error && st.agents == old(st.agents)
    ensures old(st.Auth(header)).Ok? ==>
      var uid := old(st.Auth(header)).value.id;
      st.agents == DeleteWhere(old(st.agents), id, uid)
      && resp == if FindRow(old(st.agents), id, uid).None? then Response(404, Error(DELETE_NOT_FOUND))
                 else Response(200, Message(DELETED))
  {
    var auth := st.Auth(header);
    if auth.Err? {
      return auth.error;
    }
    var uid := auth.value.id;
    var changes := CountWhere(st.agents, id, uid);
    CountWhereFind(st.agents, id, uid);
    DeleteWellFormed(st.agents, st.nextId, id, uid);
    st.agents := DeleteWhere(st.agents, id, uid);
    if changes == 0 {
      return Response(404, Error(DELETE_NOT_FOUND));
    }
    resp := Response(200, Message(DELETED));
  }

  /** `env_vars` round trip: the newest agent in its owner's listing carries exactly the value
      that was submitted when it was created. */
  lemma EnvVarsRoundTrip(rows: seq<Agent>, created: Agent)
    ensures var listed := Listing(rows + [created], created.userId);
      listed != [] && listed[0] == created
  {
    ListingInsert(rows, created, created.userId);
  }
}
