/**
 * `CustomModelViewset`, the base of every tenant-scoped viewset: `create`
 * defaults the body's `workspace` to the request's workspace, `_get_data`
 * overrides it, and `get_queryset` admits a query only for a workspace the
 * caller owns or staffs and returns exactly that workspace's rows.
 */
module Gate {
  import opened Common
  import opened Seqs
  import opened Store
  import opened Tokens
  import opened Http
  import opened Middleware

  const WorkspaceField := "workspace"

  /** `d.setdefault(k, v)`: add `v` under `k` unless the key is already there. */
  function SetDefault(d: Payload, k: string, v: Value): (r: Payload)
    ensures r.Keys == d.Keys + {k}
    ensures k in d ==> r[k] == d[k]
    ensures k !in d ==> r[k] == v
    ensures forall j | j in d :: r[j] == d[j]
  {
    if k in d then d else d[k := v]
  }

  /**
   * `CustomModelViewset.create`, up to the serializer: with the attribute
   * present, the body's `workspace` defaults to it; a `workspace` the client
   * sent is kept as sent.
   */
  method PrepareCreate(request: Request)
    modifies request
    ensures request.workspaceAttr == old(request.workspaceAttr)
    ensures request.workspaceAttr.Set? ==>
      request.data == SetDefault(old(request.data), WorkspaceField, IdValue(request.workspaceAttr.value))
    ensures request.workspaceAttr.Unset? ==> request.data == old(request.data)
  {
    if request.workspaceAttr.Set? {
      request.data := SetDefault(request.data, WorkspaceField, IdValue(request.workspaceAttr.value));
    }
  }

  datatype GateError =
    /** PermissionDenied "User should inform the desired workspace_id" (403). */
    | MustInformWorkspace
    /** `Workspace.objects.get` raised DoesNotExist (or rejected the id), which nothing catches. */
    | WorkspaceLookupFailed
    /** `_get_data` reached `return data` with `data` unbound (UnboundLocalError). */
    | DataUnbound

  function GateStatus(e: GateError): int
  {
    if e == MustInformWorkspace then Forbidden403 else ServerError500
  }

  /** `_get_data`: the body with `workspace` overridden by a truthy attribute. */
  function GetData(attr: WorkspaceAttr, data: Payload): (r: Result<Payload, GateError>)
    ensures r.Ok? <==> TruthyId(AttrValue(attr))
    ensures r.Err? ==> r.error == DataUnbound
    ensures r.Ok? ==> r.value.Keys == data.Keys + {WorkspaceField}
    ensures r.Ok? ==> r.value[WorkspaceField] == Str(AttrValue(attr).value)
    ensures r.Ok? ==> forall k | k in data && k != WorkspaceField :: r.value[k] == data[k]
  {
    var workspaceId := AttrValue(attr);
    if TruthyId(workspaceId) then Ok(data[WorkspaceField := Str(workspaceId.value)])
    else Err(DataUnbound)
  }

  /** A client-chosen workspace survives `create`'s default but not `_get_data`'s override. */
  lemma ClientWorkspaceSurvivesOnlyCreate(data: Payload, attr: WorkspaceAttr, chosen: string)
    requires TruthyId(AttrValue(attr)) && AttrValue(attr).value != chosen
    requires WorkspaceField in data && data[WorkspaceField] == Str(chosen)
    ensures SetDefault(data, WorkspaceField, IdValue(AttrValue(attr)))[WorkspaceField] == Str(chosen)
    ensures GetData(attr, data).value[WorkspaceField] != Str(chosen)
  {
  }

  /** `queryset.filter(workspace_id=w)`, for a table whose rows name their workspace through `wsOf`. */
  function InWorkspace<T>(rows: seq<T>, wsOf: T -> WorkspaceId, w: WorkspaceId): (r: seq<T>)
    ensures forall x | x in r :: x in rows && wsOf(x) == w
    ensures forall x | x in rows && wsOf(x) == w :: x in r
  {
    Where(rows, x => wsOf(x) == w)
  }

  /** Scoping an ordered table keeps it ordered. */
  lemma InWorkspaceKeepsDescending<T>(rows: seq<T>, wsOf: T -> WorkspaceId, w: WorkspaceId, key: T -> int)
    requires Descending(rows, key)
    ensures Descending(InWorkspace(rows, wsOf, w), key)
  {
    WhereKeepsDescending(rows, x => wsOf(x) == w, key);
  }

  /**
   * `get_queryset` for the authenticated user `u`. An absent or falsy
   * attribute is refused unless `u` is both superuser and staff, and that
   * pair then fails at the lookup, which finds no workspace with a null or
   * empty id; there is no superuser bypass.
   */
  function GetQueryset<T>(rows: seq<T>, wsOf: T -> WorkspaceId, db: Store, u: User, attr: WorkspaceAttr): (r: Result<seq<T>, GateError>)
    ensures r.Ok? <==> TruthyId(AttrValue(attr)) && IsMember(db, AttrValue(attr).value, u.id)
    ensures r == Err(MustInformWorkspace) <==>
      !TruthyId(AttrValue(attr)) && (!u.isSuperuser || !u.isStaff)
    ensures r.Ok? ==> forall x | x in r.value :: x in rows && wsOf(x) == AttrValue(attr).value
    ensures r.Ok? ==> forall x | x in rows && wsOf(x) == AttrValue(attr).value :: x in r.value
  {
    var workspaceId := AttrValue(attr);
    if !TruthyId(workspaceId) && (!u.isSuperuser || !u.isStaff) then Err(MustInformWorkspace)
    // A null id matches no row and "" is not a UUID: both make `get` raise.
    else if !TruthyId(workspaceId) || MemberWorkspace(db, workspaceId.value, u.id).None? then
      Err(WorkspaceLookupFailed)
    else
      Ok(InWorkspace(rows, wsOf, workspaceId.value))
  }

  /** The admitted queryset keeps table order: scoping a concatenation scopes each part. */
  lemma GetQuerysetKeepsOrder<T>(a: seq<T>, b: seq<T>, wsOf: T -> WorkspaceId, db: Store, u: User, attr: WorkspaceAttr)
    requires GetQueryset(a + b, wsOf, db, u, attr).Ok?
    ensures GetQueryset(a + b, wsOf, db, u, attr).value
         == GetQueryset(a, wsOf, db, u, attr).value + GetQueryset(b, wsOf, db, u, attr).value
  {
    WhereAppend(a, b, x => wsOf(x) == AttrValue(attr).value);
  }

  /**
   * End to end: a member of workspace `w` who got a token for `w` and sends
   * it as a bearer header sees exactly the rows of `w`, in table order.
   */
  lemma MemberTokenScopesQuery<T>(rows: seq<T>, wsOf: T -> WorkspaceId, db: Store, u: User, w: WorkspaceId,
                                  t: string, decode: string -> Option<Claims>, prior: WorkspaceAttr)
    requires w != "" && IsMember(db, w, u.id)
    requires ' ' !in t && decode(t) == Some(JwtTokens(db, u, Some(w)).value.access)
    ensures ProcessedAttr(true, map[AuthorizationHeader := BearerPrefix + t], decode, prior).Ok?
    ensures GetQueryset(rows, wsOf, db, u, ProcessedAttr(true, map[AuthorizationHeader := BearerPrefix + t], decode, prior).value)
         == Ok(InWorkspace(rows, wsOf, w))
  {
    IssuedWorkspaceReturns(db, u, Some(w), t, decode, prior);
  }
}
