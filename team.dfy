/**
 * The team endpoints. Their URLs come from two builders, `BaseUrl` and
 * `EntityUrl`, the second built on the first, as in the endpoint module.
 */
module Team {
  import opened Wrappers
  import opened Json
  import Paths
  import Rest

  /** `GetTeamParams`; `GetOrganizationParams` is its `organizationId` alone. */
  datatype TeamParams = TeamParams(organizationId: string, teamId: string)

  /** `getBaseUrl` */
  function BaseUrl(organizationId: string): (url: string)
    ensures url == Paths.Join(["", "organizations", organizationId, "teams"])
  {
    var s1 := ["", "organizations", organizationId];
    assert Paths.Join(["", "organizations"]) == "/organizations";
    Paths.JoinSnoc(["", "organizations"], organizationId);
    assert ["", "organizations"] + [organizationId] == s1;
    Paths.JoinSnoc(s1, "teams");
    assert s1 + ["teams"] == ["", "organizations", organizationId, "teams"];
    assert "/organizations/" == "/organizations" + "/";
    assert "/teams" == "/" + "teams";
    Paths.Regroup(Paths.Join(s1), "/", "teams");
    "/organizations/" + organizationId + "/teams"
  }

  /** `getEntityUrl`: the base URL, "/" and the team id. */
  function EntityUrl(params: TeamParams): (url: string)
    ensures url == Paths.Join(["", "organizations", params.organizationId, "teams", params.teamId])
  {
    Paths.JoinSnoc(["", "organizations", params.organizationId, "teams"], params.teamId);
    assert ["", "organizations", params.organizationId, "teams"] + [params.teamId]
        == ["", "organizations", params.organizationId, "teams", params.teamId];
    BaseUrl(params.organizationId) + "/" + params.teamId
  }

  /** The base URL is a strict prefix of every team's URL, and what follows it is "/" and the team id. */
  lemma BaseIsPrefixOfEntity(params: TeamParams)
    ensures |BaseUrl(params.organizationId)| < |EntityUrl(params)|
    ensures EntityUrl(params)[..|BaseUrl(params.organizationId)|] == BaseUrl(params.organizationId)
    ensures EntityUrl(params)[|BaseUrl(params.organizationId)|..] == "/" + params.teamId
  {
  }

  /** Without '/' in the ids, a team's URL determines the organization and the team, and is never a base URL. */
  lemma UrlsDistinguishTeams(p: TeamParams, q: TeamParams, organizationId: string)
    requires Paths.Segment(p.organizationId) && Paths.Segment(p.teamId)
    requires Paths.Segment(q.organizationId) && Paths.Segment(q.teamId) && Paths.Segment(organizationId)
    ensures EntityUrl(p) == EntityUrl(q) <==> p == q
    ensures EntityUrl(p) != BaseUrl(organizationId)
  {
    var sp := ["", "organizations", p.organizationId, "teams", p.teamId];
    var sq := ["", "organizations", q.organizationId, "teams", q.teamId];
    var sb := ["", "organizations", organizationId, "teams"];
    assert Paths.AllSegments(sp) && Paths.AllSegments(sq) && Paths.AllSegments(sb);
    Paths.SplitJoin(sp);
    Paths.SplitJoin(sq);
    Paths.SplitJoin(sb);
    if EntityUrl(p) == EntityUrl(q) {
      assert sp[2] == sq[2] && sp[4] == sq[4];
    }
  }

  /** `get`: GET the team's URL, no body, no config. */
  function Get(params: TeamParams): (r: Rest.Request)
    ensures r.Get? && r.url == EntityUrl(params) && r.config.None?
  {
    Rest.Get(EntityUrl(params), None)
  }

  /** `getMany`: GET the base URL with the normalized query. */
  function GetMany(organizationId: string, query: Value, normalizeSelect: Value -> Value): (r: Rest.Request)
    ensures r.Get? && r.url == BaseUrl(organizationId)
    ensures r.Params() == Some(normalizeSelect(query))
    ensures r.config.Some? && r.config.value.headers.None?
  {
    Rest.Get(BaseUrl(organizationId), Some(Rest.Config(Some(normalizeSelect(query)), None)))
  }

  /** `create`: POST the data as it is to the base URL, passing the caller's headers through as they are. */
  function Create(organizationId: string, rawData: Props, headers: Option<Rest.Headers>): (r: Rest.Request)
    ensures r.Post? && r.url == BaseUrl(organizationId)
    ensures r.Body() == Obj(rawData) && r.Params().None?
    ensures r.config.Some? && r.config.value.headers == headers
  {
    Rest.Post(BaseUrl(organizationId), Obj(rawData), Some(Rest.Config(None, headers)))
  }

  /**
   * `update`: PUT a copy of the team without its `sys`, versioned by `sys.version`
   * (0 when that is `undefined` or `null`); the caller's headers win.
   */
  function Update(params: TeamParams, rawData: Props, headers: Option<Rest.Headers>): (r: Result<Rest.Request>)
    ensures r.Err? <==> Nullish(Member(rawData, "sys"))
    ensures r.Err? ==> r.error == TypeError
    ensures r.Ok? ==> r.value.Put? && r.value.url == EntityUrl(params)
    ensures r.Ok? ==> r.value.Body().Obj?
                      && Lookup(r.value.Body().props, "sys").None?
                      && forall k :: k != "sys" ==> Lookup(r.value.Body().props, k) == Lookup(rawData, k)
    ensures r.Ok? && WellFormed(rawData) ==> WellFormed(r.value.Body().props)
    ensures r.Ok? ==> Rest.Overrides(r.value.HeaderMap(),
                                     map[Rest.VersionHeader := Rest.VersionOrZero(rawData).value], headers)
  {
    var data := Without(rawData, "sys");
    assert WellFormed(rawData) ==> WellFormed(data) by {
      if WellFormed(rawData) {
        WithoutWellFormed(rawData, "sys");
      }
    }
    match Rest.VersionOrZero(rawData)
    case Err(e) => Err(e)
    case Ok(version) =>
      Ok(Rest.Put(EntityUrl(params), Obj(data),
                  Some(Rest.Config(None, Some(Rest.WithDefaults(map[Rest.VersionHeader := version], headers))))))
  }

  /** `del`: DELETE the team's URL, no body, no config. */
  function Delete(params: TeamParams): (r: Rest.Request)
    ensures r.Del? && r.url == EntityUrl(params) && r.config.None?
  {
    Rest.Del(EntityUrl(params), None)
  }
}
