/**
 * Request descriptors. `raw.get`, `raw.put`, `raw.post`, `raw.patch` and
 * `raw.del` are not part of this model; each call of one becomes the matching
 * constructor of `Request`, holding exactly the arguments the endpoint passed.
 * Also here: the pieces the entry and team endpoints share (header merging and
 * the version read from `sys`).
 */
module Rest {
  import opened Wrappers
  import opened Json

  type Headers = map<string, Value>

  /** The axios request config an endpoint passes; `None` is a key the object literal leaves out. */
  datatype Config = Config(params: Option<Value>, headers: Option<Headers>)

  /** One call of a `raw.*` helper (GET, PUT, POST, PATCH or DELETE); a payload the call omits is `Undefined`. */
  datatype Request =
    | Get(url: string, config: Option<Config>)
    | Put(url: string, payload: Value, config: Option<Config>)
    | Post(url: string, payload: Value, config: Option<Config>)
    | Patch(url: string, payload: Value, config: Option<Config>)
    | Del(url: string, config: Option<Config>)
  {
    /** The body sent; GET and DELETE send none. */
    function Body(): Value {
      if Get? || Del? then Undefined else payload
    }

    /** The headers passed in the config, or none. */
    function HeaderMap(): Headers {
      if config.Some? && config.value.headers.Some? then config.value.headers.value else map[]
    }

    /** The query params passed in the config, if any. */
    function Params(): Option<Value> {
      if config.Some? then config.value.params else None
    }
  }

  /** `{...headers}` for optional caller headers: spreading `undefined` adds nothing. */
  function Spread(headers: Option<Headers>): (h: Headers)
    ensures headers.None? ==> h == map[]
    ensures headers.Some? ==> h == headers.value
  {
    headers.GetOr(map[])
  }

  /** The headers `h` are `defaults` with the caller's `headers` laid over them. */
  ghost predicate Overrides(h: Headers, defaults: Headers, headers: Option<Headers>) {
    && h.Keys == defaults.Keys + Spread(headers).Keys
    && (forall k :: k in Spread(headers) ==> h[k] == Spread(headers)[k])
    && (forall k :: k in defaults && k !in Spread(headers) ==> h[k] == defaults[k])
  }

  /** `{...defaults, ...headers}`: later spreads win, so the caller's headers win. */
  function WithDefaults(defaults: Headers, headers: Option<Headers>): (h: Headers)
    ensures Overrides(h, defaults, headers)
  {
    defaults + Spread(headers)
  }

  const VersionHeader := "X-Contentful-Version"

  /** `rawData.sys.version`: throws when `sys` is missing, `undefined` or `null`. */
  function SysVersion(rawData: Props): (r: Result<Value>)
    ensures r.Err? <==> Nullish(Member(rawData, "sys"))
    ensures r.Err? ==> r.error == TypeError
    ensures r.Ok? ==> Lookup(rawData, "sys").Some?
                      && r.value == Read(Lookup(rawData, "sys").value, "version")
  {
    var sys := Member(rawData, "sys");
    if Nullish(sys) then Err(TypeError) else Ok(Read(sys, "version"))
  }

  /** `rawData.sys.version ?? 0` */
  function VersionOrZero(rawData: Props): (r: Result<Value>)
    ensures r.Err? <==> SysVersion(rawData).Err?
    ensures r.Ok? ==> !Nullish(r.value)
    ensures r.Ok? ==> (r.value == SysVersion(rawData).value || (Nullish(SysVersion(rawData).value) && r.value == Num(0)))
  {
    match SysVersion(rawData)
    case Ok(v) => Ok(Coalesce(v, Num(0)))
    case Err(e) => Err(e)
  }
}
