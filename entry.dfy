/**
 * The entry endpoints: each turns its parameters into one request descriptor.
 * URLs are written as the template literals of the endpoints and proved equal
 * to the segment lists `EntityPath` and `CollectionPath` describe.
 */
module Entry {
  import opened Wrappers
  import opened Json
  import Paths
  import Rest

  /** `GetSpaceEnvironmentParams` */
  datatype EnvironmentParams = EnvironmentParams(spaceId: string, environmentId: string)

  const ContentTypeHeader := "X-Contentful-Content-Type"
  const JsonPatchContentType := "application/json-patch+json"

  /** The segments of the entries collection of an environment. */
  function CollectionSegments(params: EnvironmentParams): seq<string> {
    ["", "spaces", params.spaceId, "environments", params.environmentId, "entries"]
  }

  function CollectionPath(params: EnvironmentParams): string {
    Paths.Join(CollectionSegments(params))
  }

  function EntitySegments(params: EnvironmentParams, entryId: string): seq<string> {
    CollectionSegments(params) + [entryId]
  }

  function EntityPath(params: EnvironmentParams, entryId: string): string {
    Paths.Join(EntitySegments(params, entryId))
  }

  /** The path of an entry's `published` or `archived` sub-resource. */
  function StatePath(params: EnvironmentParams, entryId: string, state: string): string {
    Paths.Join(EntitySegments(params, entryId) + [state])
  }

  /** The template `/spaces/${spaceId}/environments/${environmentId}/entries` is `CollectionPath`. */
  lemma CollectionTemplate(params: EnvironmentParams)
    ensures "/spaces/" + params.spaceId + "/environments/" + params.environmentId + "/entries"
            == CollectionPath(params)
  {
    var sp, env := params.spaceId, params.environmentId;
    var s1, s2, s3 := ["", "spaces", sp], ["", "spaces", sp, "environments"], ["", "spaces", sp, "environments", env];
    assert Paths.Join(["", "spaces"]) == "/spaces";
    Paths.JoinSnoc(["", "spaces"], sp);
    assert ["", "spaces"] + [sp] == s1;
    Paths.JoinSnoc(s1, "environments");
    assert s1 + ["environments"] == s2;
    Paths.JoinSnoc(s2, env);
    assert s2 + [env] == s3;
    Paths.JoinSnoc(s3, "entries");
    assert s3 + ["entries"] == CollectionSegments(params);
    var x := Paths.Join(s1);
    assert "/spaces/" == "/spaces" + "/";
    assert "/environments/" == "/" + "environments" + "/";
    assert "/entries" == "/" + "entries";
    Paths.Regroup(x, "/", "environments");
    Paths.Regroup(x, "/" + "environments", "/");
    Paths.Regroup(Paths.Join(s3), "/", "entries");
  }

  /** The template `.../entries/${entryId}` is `EntityPath`. */
  lemma EntityTemplate(params: EnvironmentParams, entryId: string)
    ensures "/spaces/" + params.spaceId + "/environments/" + params.environmentId + "/entries/" + entryId
            == EntityPath(params, entryId)
  {
    CollectionTemplate(params);
    Paths.JoinSnoc(CollectionSegments(params), entryId);
    var prefix := "/spaces/" + params.spaceId + "/environments/" + params.environmentId;
    assert prefix + "/entries/" == prefix + "/entries" + "/";
  }

  /** The templates `.../entries/${entryId}/published` and `.../archived` are the entry's `StatePath`s. */
  lemma StateTemplates(params: EnvironmentParams, entryId: string)
    ensures "/spaces/" + params.spaceId + "/environments/" + params.environmentId + "/entries/" + entryId + "/published"
            == StatePath(params, entryId, "published")
    ensures "/spaces/" + params.spaceId + "/environments/" + params.environmentId + "/entries/" + entryId + "/archived"
            == StatePath(params, entryId, "archived")
  {
    EntityTemplate(params, entryId);
    Paths.JoinSnoc(EntitySegments(params, entryId), "published");
    Paths.JoinSnoc(EntitySegments(params, entryId), "archived");
    var entity := "/spaces/" + params.spaceId + "/environments/" + params.environmentId + "/entries/" + entryId;
    assert entity + "/published" == entity + "/" + "published";
    assert entity + "/archived" == entity + "/" + "archived";
  }

  /** `get`: GET the entry, with the normalized query and a copy of the caller's headers. */
  function Get(params: EnvironmentParams, entryId: string, query: Value, headers: Option<Rest.Headers>,
               normalizeSelect: Value -> Value): (r: Rest.Request)
    ensures r.Get? && r.url == EntityPath(params, entryId)
    ensures r.Params() == Some(normalizeSelect(query))
    ensures r.config.Some? && r.config.value.headers.Some?
    ensures r.HeaderMap() == Rest.Spread(headers)
  {
    EntityTemplate(params, entryId);
    Rest.Get(
      "/spaces/" + params.spaceId + "/environments/" + params.environmentId + "/entries/" + entryId,
      Some(Rest.Config(Some(normalizeSelect(query)), Some(Rest.Spread(headers)))))
  }

  /** `getMany`: GET the collection with the normalized query and no headers. */
  function GetMany(params: EnvironmentParams, query: Value, normalizeSelect: Value -> Value): (r: Rest.Request)
    ensures r.Get? && r.url == CollectionPath(params)
    ensures r.Params() == Some(normalizeSelect(query))
    ensures r.config.Some? && r.config.value.headers.None?
  {
    CollectionTemplate(params);
    Rest.Get(
      "/spaces/" + params.spaceId + "/environments/" + params.environmentId + "/entries",
      Some(Rest.Config(Some(normalizeSelect(query)), None)))
  }

  /** `patch`: PATCH the entry with the patch operations as they are, the given version and the JSON-patch content type. */
  function Patch(params: EnvironmentParams, entryId: string, version: int, data: seq<Value>,
                 headers: Option<Rest.Headers>): (r: Rest.Request)
    ensures r.Patch? && r.url == EntityPath(params, entryId)
    ensures r.Body() == Arr(data)
    ensures r.Params().None?
    ensures Rest.Overrides(r.HeaderMap(),
                           map[Rest.VersionHeader := Num(version), "Content-Type" := Str(JsonPatchContentType)],
                           headers)
  {
    EntityTemplate(params, entryId);
    Rest.Patch(
      "/spaces/" + params.spaceId + "/environments/" + params.environmentId + "/entries/" + entryId,
      Arr(data),
      Some(Rest.Config(None, Some(Rest.WithDefaults(
        map[Rest.VersionHeader := Num(version), "Content-Type" := Str(JsonPatchContentType)], headers)))))
  }

  /**
   * `update`: PUT a copy of the entry without its `sys`, versioned by `sys.version`
   * (0 when that is `undefined` or `null`); the caller's headers win.
   */
  function Update(params: EnvironmentParams, entryId: string, rawData: Props,
                  headers: Option<Rest.Headers>): (r: Result<Rest.Request>)
    ensures r.Err? <==> Nullish(Member(rawData, "sys"))
    ensures r.Err? ==> r.error == TypeError
    ensures r.Ok? ==> r.value.Put? && r.value.url == EntityPath(params, entryId)
    ensures r.Ok? ==> r.value.Body().Obj?
                      && Lookup(r.value.Body().props, "sys").None?
                      && forall k :: k != "sys" ==> Lookup(r.value.Body().props, k) == Lookup(rawData, k)
    ensures r.Ok? && WellFormed(rawData) ==> WellFormed(r.value.Body().props)
    ensures r.Ok? ==> Rest.Overrides(r.value.HeaderMap(),
                                     map[Rest.VersionHeader := Rest.VersionOrZero(rawData).value], headers)
  {
    var data := Without(rawData, "sys");
    assert WellFormed(rawData) ==> WellFormed(data) by {
      if WellFormed(rawData) {
        WithoutWellFormed(rawData, "sys");
      }
    }
    match Rest.VersionOrZero(rawData)
    case Err(e) => Err(e)
    case Ok(version) =>
      EntityTemplate(params, entryId);
      Ok(Rest.Put(
        "/spaces/" + params.spaceId + "/environments/" + params.environmentId + "/entries/" + entryId,
        Obj(data),
        Some(Rest.Config(None, Some(Rest.WithDefaults(map[Rest.VersionHeader := version], headers))))))
  }

  /** `del`: DELETE the entry, no body, no config. */
  function Delete(params: EnvironmentParams, entryId: string): (r: Rest.Request)
    ensures r.Del? && r.url == EntityPath(params, entryId) && r.config.None?
  {
    EntityTemplate(params, entryId);
    Rest.Del("/spaces/" + params.spaceId + "/environments/" + params.environmentId + "/entries/" + entryId, None)
  }

  /** `publish`: PUT `null` to `/published` with exactly one header, the version from `sys` (no default). */
  function Publish(params: EnvironmentParams, entryId: string, rawData: Props): (r: Result<Rest.Request>)
    ensures r.Err? <==> Nullish(Member(rawData, "sys"))
    ensures r.Err? ==> r.error == TypeError
    ensures r.Ok? ==> r.value.Put? && r.value.url == StatePath(params, entryId, "published")
    ensures r.Ok? ==> r.value.Body() == Null && r.value.Params().None?
    ensures r.Ok? ==> r.value.HeaderMap() == map[Rest.VersionHeader := Rest.SysVersion(rawData).value]
  {
    match Rest.SysVersion(rawData)
    case Err(e) => Err(e)
    case Ok(version) =>
      StateTemplates(params, entryId);
      Ok(Rest.Put(
        "/spaces/" + params.spaceId + "/environments/" + params.environmentId + "/entries/" + entryId + "/published",
        Null,
        Some(Rest.Config(None, Some(map[Rest.VersionHeader := version])))))
  }

  /** `unpublish`: DELETE `/published`, no body, no config. */
  function Unpublish(params: EnvironmentParams, entryId: string): (r: Rest.Request)
    ensures r.Del? && r.url == StatePath(params, entryId, "published") && r.config.None?
  {
    StateTemplates(params, entryId);
    Rest.Del(
      "/spaces/" + params.spaceId + "/environments/" + params.environmentId + "/entries/" + entryId + "/published",
      None)
  }

  /** `archive`: PUT `/archived` with no payload and no config. */
  function Archive(params: EnvironmentParams, entryId: string): (r: Rest.Request)
    ensures r.Put? && r.url == StatePath(params, entryId, "archived")
    ensures r.Body() == Undefined && r.config.None?
  {
    StateTemplates(params, entryId);
    Rest.Put(
      "/spaces/" + params.spaceId + "/environments/" + params.environmentId + "/entries/" + entryId + "/archived",
      Undefined, None)
  }

  /** `unarchive`: DELETE `/archived`, no body, no config. */
  function Unarchive(params: EnvironmentParams, entryId: string): (r: Rest.Request)
    ensures r.Del? && r.url == StatePath(params, entryId, "archived") && r.config.None?
  {
    StateTemplates(params, entryId);
    Rest.Del(
      "/spaces/" + params.spaceId + "/environments/" + params.environmentId + "/entries/" + entryId + "/archived",
      None)
  }

  /** `create`: POST the entry data, unchanged, to the collection, naming its content type in a header. */
  function Create(params: EnvironmentParams, contentTypeId: string, rawData: Props): (r: Rest.Request)
    ensures r.Post? && r.url == CollectionPath(params)
    ensures r.Body() == Obj(rawData) && r.Params().None?
    ensures r.HeaderMap() == map[ContentTypeHeader := Str(contentTypeId)]
  {
    CollectionTemplate(params);
    Rest.Post(
      "/spaces/" + params.spaceId + "/environments/" + params.environmentId + "/entries",
      Obj(rawData),
      Some(Rest.Config(None, Some(map[ContentTypeHeader := Str(contentTypeId)]))))
  }

  /** `createWithId`: PUT the entry data, unchanged, to the entry's own path, naming its content type. */
  function CreateWithId(params: EnvironmentParams, entryId: string, contentTypeId: string,
                        rawData: Props): (r: Rest.Request)
    ensures r.Put? && r.url == EntityPath(params, entryId)
    ensures r.Body() == Obj(rawData) && r.Params().None?
    ensures r.HeaderMap() == map[ContentTypeHeader := Str(contentTypeId)]
  {
    EntityTemplate(params, entryId);
    Rest.Put(
      "/spaces/" + params.spaceId + "/environments/" + params.environmentId + "/entries/" + entryId,
      Obj(rawData),
      Some(Rest.Config(None, Some(map[ContentTypeHeader := Str(contentTypeId)]))))
  }

  /** The entry's path is its collection's path followed by "/" and the entry id. */
  lemma EntityUnderCollection(params: EnvironmentParams, entryId: string)
    ensures EntityPath(params, entryId) == CollectionPath(params) + "/" + entryId
    ensures StatePath(params, entryId, "published") == EntityPath(params, entryId) + "/published"
    ensures StatePath(params, entryId, "archived") == EntityPath(params, entryId) + "/archived"
  {
    Paths.JoinSnoc(CollectionSegments(params), entryId);
    Paths.JoinSnoc(EntitySegments(params, entryId), "published");
    Paths.JoinSnoc(EntitySegments(params, entryId), "archived");
  }

  /** Sibling endpoints address the same resource: one path per entry, one per collection, one per state. */
  lemma SiblingsShareUrl(params: EnvironmentParams, entryId: string, contentTypeId: string, version: int,
                         rawData: Props, ops: seq<Value>, query: Value, headers: Option<Rest.Headers>,
                         normalizeSelect: Value -> Value)
    ensures Get(params, entryId, query, headers, normalizeSelect).url == EntityPath(params, entryId)
    ensures Patch(params, entryId, version, ops, headers).url == EntityPath(params, entryId)
    ensures Update(params, entryId, rawData, headers).Ok? ==>
              Update(params, entryId, rawData, headers).value.url == EntityPath(params, entryId)
    ensures Delete(params, entryId).url == EntityPath(params, entryId)
    ensures CreateWithId(params, entryId, contentTypeId, rawData).url == EntityPath(params, entryId)
    ensures GetMany(params, query, normalizeSelect).url == CollectionPath(params)
    ensures Create(params, contentTypeId, rawData).url == CollectionPath(params)
    ensures Publish(params, entryId, rawData).Ok? ==>
              Publish(params, entryId, rawData).value.url == Unpublish(params, entryId).url
    ensures Archive(params, entryId).url == Unarchive(params, entryId).url
  {
  }

  /** The ids of a space, an environment and an entry that are single path segments. */
  predicate SegmentIds(params: EnvironmentParams, entryId: string) {
    Paths.Segment(params.spaceId) && Paths.Segment(params.environmentId) && Paths.Segment(entryId)
  }

  /** When no id holds a '/', an entry's path determines its space, its environment and its id. */
  lemma EntityPathInjective(p: EnvironmentParams, entryId: string, q: EnvironmentParams, otherId: string)
    requires SegmentIds(p, entryId) && SegmentIds(q, otherId)
    ensures EntityPath(p, entryId) == EntityPath(q, otherId) <==> p == q && entryId == otherId
  {
    var ep, eq := EntitySegments(p, entryId), EntitySegments(q, otherId);
    assert Paths.AllSegments(ep) && Paths.AllSegments(eq);
    if EntityPath(p, entryId) == EntityPath(q, otherId) {
      Paths.JoinInjective(ep, eq);
      assert ep[2] == eq[2] && ep[4] == eq[4] && ep[6] == eq[6];
    }
  }

  /** When no id holds a '/', a collection's path determines its space and its environment. */
  lemma CollectionPathInjective(p: EnvironmentParams, q: EnvironmentParams)
    requires Paths.Segment(p.spaceId) && Paths.Segment(p.environmentId)
    requires Paths.Segment(q.spaceId) && Paths.Segment(q.environmentId)
    ensures CollectionPath(p) == CollectionPath(q) <==> p == q
  {
    var cp, cq := CollectionSegments(p), CollectionSegments(q);
    assert Paths.AllSegments(cp) && Paths.AllSegments(cq);
    if CollectionPath(p) == CollectionPath(q) {
      Paths.JoinInjective(cp, cq);
      assert cp[2] == cq[2] && cp[4] == cq[4];
    }
  }

  /**
   * When no id holds a '/', the collection, an entry, and its `published` and
   * `archived` sub-resources are four different resources, whatever the entries.
   */
  lemma ResourcesDistinct(p: EnvironmentParams, entryId: string, q: EnvironmentParams, otherId: string)
    requires SegmentIds(p, entryId) && SegmentIds(q, otherId)
    ensures CollectionPath(p) != EntityPath(q, otherId)
    ensures EntityPath(p, entryId) != StatePath(q, otherId, "published")
    ensures EntityPath(p, entryId) != StatePath(q, otherId, "archived")
    ensures StatePath(p, entryId, "published") != StatePath(q, otherId, "archived")
  {
    var cp, ep, eq := CollectionSegments(p), EntitySegments(p, entryId), EntitySegments(q, otherId);
    var pub, arc := ep + ["published"], eq + ["archived"];
    assert Paths.AllSegments(cp) && Paths.AllSegments(ep) && Paths.AllSegments(eq);
    assert Paths.AllSegments(eq + ["published"]) && Paths.AllSegments(pub) && Paths.AllSegments(arc);
    Paths.SplitJoin(cp);
    Paths.SplitJoin(ep);
    Paths.SplitJoin(eq);
    Paths.SplitJoin(eq + ["published"]);
    Paths.SplitJoin(pub);
    Paths.SplitJoin(arc);
    assert pub[7] != arc[7];
  }
}
