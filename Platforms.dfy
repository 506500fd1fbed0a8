/** The platform registry routes: list, create, update and delete, each behind the session check
    and each scoped to the caller's `user_id`. */
module Platforms {
  import opened Common
  import opened Tables
  import opened Store

  const MISSING_FIELDS: string := "缺少必要字段"
  const NAME_EXISTS: string := "平台名称已存在"
  const CREATED: string := "创建成功"
  const NOT_FOUND: string := "平台不存在"
  const NO_MATCHING_ROW: string := "更新失败，未找到匹配记录"
  const UPDATE_FAILED: string := "更新失败"
  const DELETED: string := "删除成功"
  const DELETE_NOT_FOUND: string := "平台不存在或无权限删除"
  /** Stands for the driver's message when the per-owner name constraint rejects an UPDATE. */
  const CONSTRAINT_MESSAGE: string := "UNIQUE constraint failed"

  /** The optional `admin_url` of a request body. Absent and null differ here: an absent field
      destructures to `undefined`, which the database refuses to bind, while null is stored. */
  datatype AdminUrl = Missing | Null | Given(url: string)

  /** The JSON body of a create or update request; for the mandatory fields None is an absent
      or null field. */
  datatype PlatformInput = PlatformInput(
    name: Option<string>, apiBaseUrl: Option<string>, apiKey: Option<string>,
    models: Option<string>, adminUrl: AdminUrl)

  /** `name && api_base_url && api_key && models`. */
  predicate Complete(req: PlatformInput) {
    Present(req.name) && Present(req.apiBaseUrl) && Present(req.apiKey) && Present(req.models)
  }

  /** `details` of a rejected update: which mandatory fields were truthy. */
  function Presence(req: PlatformInput): (f: FieldFlags)
    ensures f.name && f.apiBaseUrl && f.apiKey && f.models <==> Complete(req)
  {
    FieldFlags(Present(req.name), Present(req.apiBaseUrl), Present(req.apiKey), Present(req.models))
  }

  /** `admin_url || null`, as update stores it: absent, null and the empty string all become
      null. */
  function AdminUrlOrNull(adminUrl: AdminUrl): (r: Option<string>)
    ensures r.Some? <==> adminUrl.Given? && adminUrl.url != ""
    ensures r.Some? ==> r.value == adminUrl.url
  {
    if adminUrl.Given? && adminUrl.url != "" then Some(adminUrl.url) else None
  }

  /** GET /: exactly the caller's platforms, newest first; the store is only read. */
  method List(st: Store, header: Option<string>) returns (resp: Response)
    ensures st.Auth(header).Err? ==> resp == st.Auth(header).error
    ensures st.Auth(header).Ok? ==>
      resp.status == 200 && resp.body.PlatformList?
      && (forall p :: p in resp.body.platforms <==> p in st.platforms && p.userId == st.Auth(header).value.id)
    ensures st.Auth(header).Ok? && IdsIncreasing(st.platforms) ==>
      forall i, j :: 0 <= i < j < |resp.body.platforms| ==> resp.body.platforms[i].id > resp.body.platforms[j].id
  {
    var auth := st.Auth(header);
    if auth.Err? {
      return auth.error;
    }
    resp := Response(200, PlatformList(Listing(st.platforms, auth.value.id)));
  }

  /** POST /. A missing mandatory field is a 400. The insert fails, and the catch answers 400
      "name exists" without adding a row, both when the caller already uses the name and when
      `admin_url` is absent from the body. Otherwise one row owned by the caller is appended with
      `admin_url` as given (null stays null, even an empty string is kept), and its new id is
      returned. */
  method Create(st: Store, header: Option<string>, req: PlatformInput) returns (resp: Response)
    requires st.Valid()
    modifies st
    ensures st.Valid()
    ensures st.users == old(st.users) && st.sessions == old(st.sessions)
    ensures st.agents == old(st.agents) && st.now == old(st.now)
    ensures old(st.Auth(header)).Err? ==>
      resp == old(st.Auth(header)).error && st.platforms == old(st.platforms) && st.nextId == old(st.nextId)
    ensures old(st.Auth(header)).Ok? && !Complete(req) ==>
      resp == Response(400, Error(MISSING_FIELDS)) && st.platforms == old(st.platforms) && st.nextId == old(st.nextId)
    ensures old(st.Auth(header)).Ok? && Complete(req) ==>
      var uid := old(st.Auth(header)).value.id;
      if req.adminUrl.Missing? || OwnsName(old(st.platforms), uid, req.name.value) then
        resp == Response(400, Error(NAME_EXISTS)) && st.platforms == old(st.platforms) && st.nextId == old(st.nextId)
      else
        resp == Response(200, Created(old(st.nextId), CREATED))
        && st.platforms == old(st.platforms) + [Row(old(st.nextId), uid, req.name.value,
             PlatformData(req.apiBaseUrl.value, req.apiKey.value, req.models.value,
               if req.adminUrl.Given? then Some(req.adminUrl.url) else None))]
        && st.nextId == old(st.nextId) + 1
  {
    var auth := st.Auth(header);
    if auth.Err? {
      return auth.error;
    }
    var uid := auth.value.id;
    if !Complete(req) {
      return Response(400, Error(MISSING_FIELDS));
    }
    // an unbindable `undefined` and a clash with the per-owner name constraint both throw
    if req.adminUrl.Missing? || OwnsName(st.platforms, uid, req.name.value) {
      return Response(400, Error(NAME_EXISTS));
    }
    var adminUrl := if req.adminUrl.Given? then Some(req.adminUrl.url) else None;
    var row := Row(st.nextId, uid, req.name.value,
                   PlatformData(req.apiBaseUrl.value, req.apiKey.value, req.models.value, adminUrl));
    InsertWellFormed(st.platforms, st.nextId, row);
    st.platforms := st.platforms + [row];
    st.nextId := st.nextId + 1;
    resp := Response(200, Created(row.id, CREATED));
  }

  /** PUT /:id. A missing field is a 400 listing which fields were present; a row that does not
      exist or belongs to someone else is a 404; a name used by another of the caller's rows is
      a 400 from the failed statement; otherwise only that row takes the five new values, with
      an absent, null or empty `admin_url` stored as null. No other row changes. */
  method Update(st: Store, header: Option<string>, id: int, req: PlatformInput) returns (resp: Response)
    requires st.Valid()
    modifies st
    ensures st.Valid()
    ensures st.users == old(st.users) && st.sessions == old(st.sessions) && st.agents == old(st.agents)
    ensures st.nextId == old(st.nextId) && st.now == old(st.now)
    ensures old(st.Auth(header)).Err? ==> resp == old(st.Auth(header)).error && st.platforms == old(st.platforms)
    ensures old(st.Auth(header)).Ok? && !Complete(req) ==>
      resp == Response(400, MissingFields(MISSING_FIELDS, Presence(req))) && st.platforms == old(st.platforms)
    ensures old(st.Auth(header)).Ok? && Complete(req) ==>
      var uid := old(st.Auth(header)).value.id;
      if FindRow(old(st.platforms), id, uid).None? then
        resp == Response(404, Error(NOT_FOUND)) && st.platforms == old(st.platforms)
      else if NameClash(old(st.platforms), id, uid, req.name.value) then
        resp == Response(400, ErrorDetail(UPDATE_FAILED, CONSTRAINT_MESSAGE)) && st.platforms == old(st.platforms)
      else
        resp == Response(200, UpdatedWithId(id))
        && st.platforms == UpdateWhere(old(st.platforms), id, uid, req.name.value,
             PlatformData(req.apiBaseUrl.value, req.apiKey.value, req.models.value, AdminUrlOrNull(req.adminUrl)))
  {
    var auth := st.Auth(header);
    if auth.Err? {
      return auth.error;
    }
    var uid := auth.value.id;
    if !Complete(req) {
      return Response(400, MissingFields(MISSING_FIELDS, Presence(req)));
    }
    if FindRow(st.platforms, id, uid).None? {
      return Response(404, Error(NOT_FOUND));
    }
    if NameClash(st.platforms, id, uid, req.name.value) {
      return Response(400, ErrorDetail(UPDATE_FAILED, CONSTRAINT_MESSAGE));
    }
    var data := PlatformData(req.apiBaseUrl.value, req.apiKey.value, req.models.value, AdminUrlOrNull(req.adminUrl));
    var changes := CountWhere(st.platforms, id, uid);
    CountWhereFind(st.platforms, id, uid);
    UpdateWellFormed(st.platforms, st.nextId, id, uid, req.name.value, data);
    st.platforms := UpdateWhere(st.platforms, id, uid, req.name.value, data);
    if changes == 0 {
      return Response(400, Error(NO_MATCHING_ROW));
    }
    resp := Response(200, UpdatedWithId(id));
  }

  /** DELETE /:id. Removes the row only when both its id and its owner match; when no row
      matched, a 404. */
  method Delete(st: Store, header: Option<string>, id: int) returns (resp: Response)
    requires st.Valid()
    modifies st
    ensures st.Valid()
    ensures st.users == old(st.users) && st.sessions == old(st.sessions) && st.agents == old(st.agents)
    ensures st.nextId == old(st.nextId) && st.now == old(st.now)
    ensures old(st.Auth(header)).Err? ==> resp == old(st.Auth(header)).error && st.platforms == old(st.platforms)
    ensures old(st.Auth(header)).Ok? ==>
      var uid := old(st.Auth(header)).value.id;
      st.platforms == DeleteWhere(old(st.platforms), id, uid)
      && resp == if FindRow(old(st.platforms), id, uid).None? then Response(404, Error(DELETE_NOT_FOUND))
                 else Response(200, Message(DELETED))
  {
    var auth := st.Auth(header);
    if auth.Err? {
      return auth.error;
    }
    var uid := auth.value.id;
    var changes := CountWhere(st.platforms, id, uid);
    CountWhereFind(st.platforms, id, uid);
    DeleteWellFormed(st.platforms, st.nextId, id, uid);
    st.platforms := DeleteWhere(st.platforms, id, uid);
    if changes == 0 {
      return Response(404, Error(DELETE_NOT_FOUND));
    }
    resp := Response(200, Message(DELETED));
  }
}
