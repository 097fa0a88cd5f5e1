/**
  The Redis category client (tests/skywalking/bdp_api/redis_client.py): a
  category is validated against the storage manager, then every key the
  client touches is namespaced as `project_category_key` on a shared Redis
  keyspace. The HTTP lookup is a function parameter; the Redis server is the
  class `Server`, a keyspace of string values with their millisecond expiries.
 */
module RedisCategory {
  import opened Wrappers
  import opened Strings

  // ---------------------------------------------------------------------------
  // Validation (`RedisCategory.__init__`)
  // ---------------------------------------------------------------------------

  /** Where the validation service and the Redis cluster are. */
  datatype Endpoints = Endpoints(validationUrl: string, redisHost: string, redisPort: nat)

  /** The endpoints chosen by the `BDP_ENV` variable; without it the client is outside the cluster. */
  function EndpointsFor(env: Option<string>, masterHost: string): (e: Endpoints)
    ensures env == Some("dev") || env == Some("prod") ==>
              e.validationUrl == "http://storage-manager-service:8080/redis" && e.redisPort == 6379
    ensures env == Some("prod") ==> e.redisHost == "cybertron-redis"
    ensures env != Some("dev") && env != Some("prod") ==>
              e.redisHost == masterHost && e.redisPort == 30191
              && e.validationUrl == "http://" + masterHost + ":30080/default/redissvc/redis"
  {
    if env == Some("dev") then
      Endpoints("http://storage-manager-service:8080/redis", "redis-business-public-0.redis-business-public", 6379)
    else if env == Some("prod") then
      Endpoints("http://storage-manager-service:8080/redis", "cybertron-redis", 6379)
    else
      Endpoints("http://" + masterHost + ":30080/default/redissvc/redis", masterHost, 30191)
  }

  /** The category record the validation service returns; `authedAppKeys` of `None` is a JSON null, `expireMs` of `None` a missing key. */
  datatype CategoryInfo = CategoryInfo(enableAuthorization: int, authedAppKeys: Option<string>, expireMs: Option<int>)

  datatype InitError =
    | EmptyCategoryName          // "categoryName must not be empty!", raised before the try
    | ValidationFailed(message: string)  // every failure inside the first try, re-raised by the bare except
    | ConnectFailed              // "Could not connect to redis cluster."

  /** What a validated client keeps: the stripped names, the default expiry and the cluster address. */
  datatype Settings = Settings(project: string, category: string, expireMs: Option<int>, host: string, port: nat)

  /** `project_name` of `None` or `''` becomes `"public"`. */
  function ProjectOrDefault(projectName: Option<string>): (p: string)
    ensures p != ""
    ensures projectName.Some? && projectName.value != "" ==> p == projectName.value
  {
    if projectName.None? || projectName.value == "" then "public" else projectName.value
  }

  predicate BlankCategory(categoryName: Option<string>) {
    categoryName.None? || Strip(categoryName.value, Whitespace) == ""
  }

  function ValidationUri(url: string, category: string, project: string): string {
    url + "/categories/" + category + "?project-name=" + project
  }

  function ValidationMessage(project: string, category: string): string {
    "Could not validate redis category: " + project + "-" + category
  }

  /**
    The authorisation decision: a category without authorisation admits every
    caller; one with it admits an `appkey` listed in the non-empty
    comma-separated `authedAppKeys`.
   */
  predicate Authorized(enableAuthorization: int, authedAppKeys: Option<string>, appkey: Option<string>) {
    enableAuthorization != 1
    || (authedAppKeys.Some? && authedAppKeys.value != "" && appkey.Some?
        && appkey.value in Split(authedAppKeys.value, ","))
  }

  /**
    `RedisCategory(category_name, project_name, appkey, k8s_master_host)`
    with `BDP_ENV == env`: `fetch` is the category lookup, `None` when the
    request raises, the status is not 200 or the body has no category record.
   */
  function Validate(categoryName: Option<string>, projectName: Option<string>, appkey: Option<string>,
                    env: Option<string>, masterHost: string, fetch: string -> Option<CategoryInfo>): (r: Result<Settings, InitError>)
    ensures BlankCategory(categoryName) ==> r == Err(EmptyCategoryName)
    ensures !BlankCategory(categoryName) ==>
              var ep := EndpointsFor(env, masterHost);
              var project := ProjectOrDefault(projectName);
              var info := fetch(ValidationUri(ep.validationUrl, categoryName.value, project));
              // a failed lookup and a denied appkey are the same generic error
              ((info.None? || !Authorized(info.value.enableAuthorization, info.value.authedAppKeys, appkey))
                 <==> r == Err(ValidationFailed(ValidationMessage(project, categoryName.value))))
              // a found, authorised record without `expireMs` fails in the second try
              && ((info.Some? && Authorized(info.value.enableAuthorization, info.value.authedAppKeys, appkey)
                   && info.value.expireMs.None?) <==> r == Err(ConnectFailed))
              // otherwise the client keeps the stripped names, the cluster address and the expiry, non-positive as None
              && (r.Ok? <==> info.Some? && Authorized(info.value.enableAuthorization, info.value.authedAppKeys, appkey)
                             && info.value.expireMs.Some?)
              && (r.Ok? ==>
                    r.value == Settings(Strip(project, Whitespace), Strip(categoryName.value, Whitespace),
                                        if info.value.expireMs.value <= 0 then None else info.value.expireMs,
                                        ep.redisHost, ep.redisPort))
  {
    var ep := EndpointsFor(env, masterHost);
    var project := ProjectOrDefault(projectName);
    if BlankCategory(categoryName) then Err(EmptyCategoryName)
    else
      var category := categoryName.value;
      match fetch(ValidationUri(ep.validationUrl, category, project))
      case None => Err(ValidationFailed(ValidationMessage(project, category)))
      case Some(info) =>
        if !Authorized(info.enableAuthorization, info.authedAppKeys, appkey) then
          Err(ValidationFailed(ValidationMessage(project, category)))
        else
          match info.expireMs
          case None => Err(ConnectFailed)
          case Some(ms) =>
            Ok(Settings(Strip(project, Whitespace), Strip(category, Whitespace),
                        if ms <= 0 then None else Some(ms), ep.redisHost, ep.redisPort))
  }

  /** A category name made only of whitespace (or empty) is rejected before any request. */
  lemma WhitespaceCategoryRejected(category: string, projectName: Option<string>, appkey: Option<string>,
                                   env: Option<string>, masterHost: string, fetch: string -> Option<CategoryInfo>)
    requires forall i :: 0 <= i < |category| ==> category[i] in Whitespace
    ensures Validate(Some(category), projectName, appkey, env, masterHost, fetch) == Err(EmptyCategoryName)
  {
    StripAll(category, Whitespace);
  }

  /** A name with a non-whitespace character is not blank, so it reaches the validation service. */
  lemma VisibleCategoryNotBlank(category: string, i: nat)
    requires i < |category| && category[i] !in Whitespace
    ensures !BlankCategory(Some(category))
  {
    var k := StripShape(category, Whitespace);
    var n := |Strip(category, Whitespace)|;
    assert k <= i < k + n;
  }

  /**
    Because of the bare `except`, a denied appkey is indistinguishable from a
    category the service does not know: both give the same generic error.
   */
  lemma DenialLooksLikeMissingCategory(categoryName: Option<string>, projectName: Option<string>, appkey: Option<string>,
                                       env: Option<string>, masterHost: string,
                                       denying: string -> Option<CategoryInfo>, missing: string -> Option<CategoryInfo>)
    requires !BlankCategory(categoryName)
    requires var uri := ValidationUri(EndpointsFor(env, masterHost).validationUrl, categoryName.value, ProjectOrDefault(projectName));
             denying(uri).Some? && !Authorized(denying(uri).value.enableAuthorization, denying(uri).value.authedAppKeys, appkey)
             && missing(uri).None?
    ensures Validate(categoryName, projectName, appkey, env, masterHost, denying)
            == Validate(categoryName, projectName, appkey, env, masterHost, missing)
            == Err(ValidationFailed(ValidationMessage(ProjectOrDefault(projectName), categoryName.value)))
  {
  }

  /**
    With authorisation on and `authedAppKeys` written as a comma-joined list of
    comma-free keys, the admitted appkeys are exactly the listed ones.
   */
  lemma AuthorizedIffListed(keys: seq<string>, appkey: string)
    requires |keys| >= 1 && Join(keys, ",") != ""
    requires forall k :: 0 <= k < |keys| ==> ',' !in keys[k]
    ensures Authorized(1, Some(Join(keys, ",")), Some(appkey)) <==> appkey in keys
  {
    SplitJoin(keys, ",");
  }

  /**
    A client for a category with authorisation on, whose record lists
    comma-free keys and carries `expireMs`, is created exactly when its
    appkey is one of the listed keys.
   */
  lemma ValidateAdmitsIffListed(categoryName: Option<string>, projectName: Option<string>, appkey: string,
                                env: Option<string>, masterHost: string, fetch: string -> Option<CategoryInfo>,
                                keys: seq<string>, ms: int)
    requires !BlankCategory(categoryName)
    requires |keys| >= 1 && Join(keys, ",") != ""
    requires forall k :: 0 <= k < |keys| ==> ',' !in keys[k]
    requires fetch(ValidationUri(EndpointsFor(env, masterHost).validationUrl, categoryName.value, ProjectOrDefault(projectName)))
             == Some(CategoryInfo(1, Some(Join(keys, ",")), Some(ms)))
    ensures Validate(categoryName, projectName, Some(appkey), env, masterHost, fetch).Ok? <==> appkey in keys
  {
    AuthorizedIffListed(keys, appkey);
  }

  /** With authorisation on, a missing appkey, an empty or null key list, or an appkey holding a comma is denied. */
  lemma DeniedWithoutListedKey(authedAppKeys: Option<string>, appkey: Option<string>)
    requires appkey.None? || authedAppKeys.None? || authedAppKeys == Some("") || ',' in appkey.value
    ensures !Authorized(1, authedAppKeys, appkey)
  {
    if appkey.Some? && authedAppKeys.Some? && ',' in appkey.value {
      SplitPartsNoSep(authedAppKeys.value, ',');
    }
  }

  /** A category without authorisation admits every caller, even without an appkey. */
  lemma OpenCategoryAdmitsAll(enableAuthorization: int, authedAppKeys: Option<string>, appkey: Option<string>)
    requires enableAuthorization != 1
    ensures Authorized(enableAuthorization, authedAppKeys, appkey)
  {
  }

  // ---------------------------------------------------------------------------
  // Keys and expiry
  // ---------------------------------------------------------------------------

  /** `__wrapKey(key)`. */
  function Wrap(project: string, category: string, key: string): (w: string)
    ensures |w| == |project| + |category| + 2 + |key|
    ensures StartsWith(w, project + "_" + category + "_")
    ensures w[|project| + |category| + 2..] == key
  {
    project + "_" + category + "_" + key
  }

  /** Within one category distinct keys stay distinct. */
  lemma WrapInjective(project: string, category: string, a: string, b: string)
    requires Wrap(project, category, a) == Wrap(project, category, b)
    ensures a == b
  {
    assert a == Wrap(project, category, a)[|project| + |category| + 2..];
  }

  /** Two categories whose names place the underscore differently share their keys. */
  lemma NamespacesCanOverlap(key: string)
    ensures Wrap("a_b", "c", key) == Wrap("a", "b_c", key)
  {
  }

  /** `set`'s expiry: the caller's `expire_ms` when it is positive, otherwise the category's default. */
  function EffectiveExpiry(expireMs: Option<int>, categoryDefault: Option<int>): (px: Option<int>)
    ensures expireMs.Some? && expireMs.value > 0 ==> px == expireMs
    ensures (expireMs.None? || expireMs.value <= 0) ==> px == categoryDefault
  {
    if expireMs.Some? && expireMs.value > 0 then expireMs else categoryDefault
  }

  /** With a validated default, `set` never sends a non-positive expiry. */
  lemma ExpiryPositive(expireMs: Option<int>, s: Settings, categoryName: Option<string>, projectName: Option<string>,
                       appkey: Option<string>, env: Option<string>, masterHost: string, fetch: string -> Option<CategoryInfo>)
    requires Validate(categoryName, projectName, appkey, env, masterHost, fetch) == Ok(s)
    ensures EffectiveExpiry(expireMs, s.expireMs).Some? ==> EffectiveExpiry(expireMs, s.expireMs).value > 0
  {
  }

  /** `key is None or key == ''`. */
  predicate BlankKey(key: Option<string>) {
    key.None? || key.value == ""
  }

  // ---------------------------------------------------------------------------
  // The keyspace and the client
  // ---------------------------------------------------------------------------

  /** The Redis server: string values, and the remaining lifetime in milliseconds of those with one. */
  class Server {
    var data: map<string, string>
    var ttl: map<string, int>

    constructor()
      ensures data == map[] && ttl == map[]
    {
      data := map[];
      ttl := map[];
    }
  }

  function Lookup(data: map<string, string>, w: string): (v: Option<string>)
    ensures v.Some? <==> w in data
  {
    if w in data then Some(data[w]) else None
  }

  /** How the client receives a reply: an integer or a (decoded) string. */
  datatype Reply = IntReply(n: int) | StrReply(s: string)

  /** The server's reply to `EXISTS w`: the number of the given keys that exist. */
  function ExistsReply(data: map<string, string>, w: string): (r: Reply)
    ensures r == IntReply(if w in data then 1 else 0)
  {
    IntReply(if w in data then 1 else 0)
  }

  /** What `set` hands back: `True`, `None`, or a server error raised to the caller. */
  datatype SetResult = ReturnedTrue | ReturnedNone | Raised

  datatype ClientError = TypeError  // `None` concatenated into a key

  /** `mget`'s result: requested key `keys[i]` mapped to `values[i]` for the first `n` positions, later ones overwriting. */
  function Collect(keys: seq<string>, values: seq<Option<string>>, n: nat): map<string, Option<string>>
    requires n <= |keys| && n <= |values|
  {
    if n == 0 then map[] else Collect(keys, values, n - 1)[keys[n - 1] := values[n - 1]]
  }

  /** The keys of `Collect` are the requested keys; a key's value is the one at its last position. */
  lemma {:induction false} CollectLastWins(keys: seq<string>, values: seq<Option<string>>, n: nat, j: nat)
    requires n <= |keys| && n <= |values| && j < n
    requires forall j' :: j < j' < n ==> keys[j'] != keys[j]
    ensures keys[j] in Collect(keys, values, n) && Collect(keys, values, n)[keys[j]] == values[j]
  {
    if j < n - 1 {
      CollectLastWins(keys, values, n - 1, j);
    }
  }

  lemma {:induction false} CollectKeys(keys: seq<string>, values: seq<Option<string>>, n: nat, k: string)
    requires n <= |keys| && n <= |values|
    ensures k in Collect(keys, values, n) ==> exists j :: 0 <= j < n && keys[j] == k
  {
    if n > 0 && k != keys[n - 1] {
      CollectKeys(keys, values, n - 1, k);
    }
  }

  /** The last position at which `k` occurs among the first `n` keys. */
  function LastIndex(keys: seq<string>, n: nat, k: string): (j: nat)
    requires n <= |keys| && exists i :: 0 <= i < n && keys[i] == k
    ensures j < n && keys[j] == k && forall j' :: j < j' < n ==> keys[j'] != k
  {
    if keys[n - 1] == k then n - 1 else LastIndex(keys, n - 1, k)
  }

  /** The server's reply to `MGET`: one value or nil per requested key, in order. */
  function MGetReply(data: map<string, string>, wrapped: seq<string>): (vs: seq<Option<string>>)
    ensures |vs| == |wrapped| && forall i :: 0 <= i < |wrapped| ==> vs[i] == Lookup(data, wrapped[i])
  {
    seq(|wrapped|, i requires 0 <= i < |wrapped| => Lookup(data, wrapped[i]))
  }

  /** `__wrapKey` applied to every key of an `mset` dictionary. */
  function WrapMap(project: string, category: string, kvs: map<string, string>): (m: map<string, string>)
    ensures m.Keys == set k | k in kvs :: Wrap(project, category, k)
    ensures forall k :: k in kvs ==> m[Wrap(project, category, k)] == kvs[k]
  {
    WrapInjectiveAll(project, category);
    map k | k in kvs :: Wrap(project, category, k) := kvs[k]
  }

  lemma WrapInjectiveAll(project: string, category: string)
    ensures forall a, b :: Wrap(project, category, a) == Wrap(project, category, b) ==> a == b
  {
    forall a, b | Wrap(project, category, a) == Wrap(project, category, b) ensures a == b {
      WrapInjective(project, category, a, b);
    }
  }

  /** A client of one validated category on the shared server. */
  class Category {
    const server: Server
    const settings: Settings

    constructor(settings: Settings, server: Server)
      ensures this.settings == settings && this.server == server
    {
      this.settings := settings;
      this.server := server;
    }

    /** `self.__wrapKey(key)`. */
    function Key(key: string): (w: string)
      ensures w == Wrap(settings.project, settings.category, key)
    {
      Wrap(settings.project, settings.category, key)
    }

    /** `exists(key)` as written: the integer reply is compared with the string `'1'`, so the answer is always `False`. */
    method ExistsAsWritten(key: Option<string>) returns (b: bool)
      ensures !b
    {
      if BlankKey(key) {
        return false;
      }
      var reply := ExistsReply(server.data, Key(key.value));
      b := reply == StrReply("1");
    }

    /** `exists(key)` as evidently intended: true exactly for a stored, non-blank key. */
    method Exists(key: Option<string>) returns (b: bool)
      ensures b <==> !BlankKey(key) && Key(key.value) in server.data
    {
      if BlankKey(key) {
        return false;
      }
      var reply := ExistsReply(server.data, Key(key.value));
      b := reply == IntReply(1);
    }

    /** `delete(key)`: the number of keys removed, or `None` for a blank key without contacting the server. */
    method Delete(key: Option<string>) returns (r: Option<int>)
      modifies server
      ensures BlankKey(key) ==> r.None? && server.data == old(server.data) && server.ttl == old(server.ttl)
      ensures !BlankKey(key) ==>
                r == Some(if Key(key.value) in old(server.data) then 1 else 0)
                && server.data == old(server.data) - {Key(key.value)}
                && server.ttl == old(server.ttl) - {Key(key.value)}
    {
      if BlankKey(key) {
        return None;
      }
      var w := Key(key.value);
      r := Some(if w in server.data then 1 else 0);
      server.data := server.data - {w};
      server.ttl := server.ttl - {w};
    }

    /**
      `set(key, value, expire_ms, nx, xx)`: a blank key or a `None` value
      returns `None` untouched; otherwise `SET` with the effective expiry,
      which the server refuses when both `nx` and `xx` are given.
     */
    method Set(key: Option<string>, value: Option<string>, expireMs: Option<int>, nx: bool, xx: bool)
      returns (r: SetResult)
      modifies server
      ensures BlankKey(key) || value.None? ==>
                r == ReturnedNone && server.data == old(server.data) && server.ttl == old(server.ttl)
      ensures !BlankKey(key) && value.Some? ==>
                var w := Key(key.value);
                var px := EffectiveExpiry(expireMs, settings.expireMs);
                if nx && xx then
                  r == Raised && server.data == old(server.data) && server.ttl == old(server.ttl)
                else if (nx && w in old(server.data)) || (xx && w !in old(server.data)) then
                  r == ReturnedNone && server.data == old(server.data) && server.ttl == old(server.ttl)
                else
                  r == ReturnedTrue && server.data == old(server.data)[w := value.value]
                  && server.ttl == if px.Some? then old(server.ttl)[w := px.value] else old(server.ttl) - {w}
    {
      if BlankKey(key) || value.None? {
        return ReturnedNone;
      }
      var px := EffectiveExpiry(expireMs, settings.expireMs);
      var w := Key(key.value);
      if nx && xx {
        return Raised;
      }
      if (nx && w in server.data) || (xx && w !in server.data) {
        return ReturnedNone;
      }
      server.data := server.data[w := value.value];
      if px.Some? {
        server.ttl := server.ttl[w := px.value];
      } else {
        server.ttl := server.ttl - {w};
      }
      return ReturnedTrue;
    }

    /** `get(key)`: no guard, so `None` fails in the key concatenation and `''` reads the bare prefix. */
    method Get(key: Option<string>) returns (r: Result<Option<string>, ClientError>)
      ensures key.None? ==> r == Err(TypeError)
      ensures key.Some? ==> r == Ok(Lookup(server.data, Key(key.value)))
    {
      if key.None? {
        return Err(TypeError);
      }
      return Ok(Lookup(server.data, Key(key.value)));
    }

    /** `strlen(key)`: 0 for a blank or missing key, otherwise the value's length. */
    method StrLen(key: Option<string>) returns (n: nat)
      ensures BlankKey(key) ==> n == 0
      ensures !BlankKey(key) ==> n == if Key(key.value) in server.data then |server.data[Key(key.value)]| else 0
    {
      if BlankKey(key) {
        return 0;
      }
      var w := Key(key.value);
      n := if w in server.data then |server.data[w]| else 0;
    }

    /** `mget(keys)`: each requested key mapped to the stored value of its wrapped key. */
    method MGet(keys: Option<seq<string>>) returns (r: Option<map<string, Option<string>>>)
      ensures keys.None? ==> r.None?
      ensures keys.Some? ==>
                r == Some(Collect(keys.value, MGetReply(server.data, seq(|keys.value|, i requires 0 <= i < |keys.value| => Key(keys.value[i]))), |keys.value|))
    {
      if keys.None? {
        return None;
      }
      var ks := keys.value;
      var wrapped := seq(|ks|, i requires 0 <= i < |ks| => Key(ks[i]));
      var values := MGetReply(server.data, wrapped);
      var result: map<string, Option<string>> := map[];
      var i := 0;
      while i < |values|
        invariant 0 <= i <= |values| == |ks|
        invariant result == Collect(ks, values, i)
      {
        result := result[ks[i] := values[i]];
        i := i + 1;
      }
      return Some(result);
    }

    /** `mset(kvs)`: every pair stored under its wrapped key, replacing the value and dropping any expiry. */
    method MSet(kvs: Option<map<string, string>>) returns (r: Option<bool>)
      modifies server
      ensures kvs.None? ==> r.None? && server.data == old(server.data) && server.ttl == old(server.ttl)
      ensures kvs.Some? ==>
                var m := WrapMap(settings.project, settings.category, kvs.value);
                r == Some(true) && server.data == old(server.data) + m && server.ttl == old(server.ttl) - m.Keys
    {
      if kvs.None? {
        return None;
      }
      var tmp: map<string, string> := map[];
      var todo := kvs.value.Keys;
      while todo != {}
        invariant todo <= kvs.value.Keys
        invariant server.data == old(server.data) && server.ttl == old(server.ttl)
        invariant tmp == WrapMap(settings.project, settings.category, kvs.value - todo)
        decreases todo
      {
        var k :| k in todo;
        WrapMapStep(settings.project, settings.category, kvs.value, todo, k);
        tmp := tmp[Key(k) := kvs.value[k]];
        todo := todo - {k};
      }
      assert kvs.value - todo == kvs.value;
      server.data := server.data + tmp;
      server.ttl := server.ttl - tmp.Keys;
      return Some(true);
    }
  }

  /** Adding one more pair to the wrapped dictionary. */
  lemma WrapMapStep(project: string, category: string, kvs: map<string, string>, todo: set<string>, k: string)
    requires k in todo && todo <= kvs.Keys
    ensures WrapMap(project, category, kvs - (todo - {k}))
            == WrapMap(project, category, kvs - todo)[Wrap(project, category, k) := kvs[k]]
  {
    var a := WrapMap(project, category, kvs - (todo - {k}));
    var b := WrapMap(project, category, kvs - todo)[Wrap(project, category, k) := kvs[k]];
    forall w | w in a ensures w in b && a[w] == b[w] {
      var k' :| k' in kvs - (todo - {k}) && w == Wrap(project, category, k');
      if k' != k {
        assert k' in kvs - todo;
        if w == Wrap(project, category, k) {
          WrapInjective(project, category, k', k);
        }
      }
    }
    forall w | w in b ensures w in a {
      if w != Wrap(project, category, k) {
        var k' :| k' in kvs - todo && w == Wrap(project, category, k');
        assert k' in kvs - (todo - {k});
      }
    }
  }

  // ---------------------------------------------------------------------------
  // Properties across calls
  // ---------------------------------------------------------------------------

  /** Every requested key of `mget` maps to the value stored under its own wrapped key, duplicates included. */
  lemma MGetReadsStore(project: string, category: string, data: map<string, string>, keys: seq<string>, k: string)
    requires k in keys
    ensures var wrapped := seq(|keys|, i requires 0 <= i < |keys| => Wrap(project, category, keys[i]));
            var c := Collect(keys, MGetReply(data, wrapped), |keys|);
            k in c && c[k] == Lookup(data, Wrap(project, category, k))
  {
    var wrapped := seq(|keys|, i requires 0 <= i < |keys| => Wrap(project, category, keys[i]));
    var j := LastIndex(keys, |keys|, k);
    CollectLastWins(keys, MGetReply(data, wrapped), |keys|, j);
  }

  /** `mget` returns exactly the requested keys. */
  lemma MGetKeys(project: string, category: string, data: map<string, string>, keys: seq<string>)
    ensures var wrapped := seq(|keys|, i requires 0 <= i < |keys| => Wrap(project, category, keys[i]));
            Collect(keys, MGetReply(data, wrapped), |keys|).Keys == set k | k in keys
  {
    var wrapped := seq(|keys|, i requires 0 <= i < |keys| => Wrap(project, category, keys[i]));
    var c := Collect(keys, MGetReply(data, wrapped), |keys|);
    forall k | k in c ensures k in keys {
      CollectKeys(keys, MGetReply(data, wrapped), |keys|, k);
    }
    forall k | k in keys ensures k in c {
      MGetReadsStore(project, category, data, keys, k);
    }
  }

  /** After `mset(kvs)`, `mget` of any of its keys reads back the value just written. */
  lemma MSetThenMGet(project: string, category: string, data: map<string, string>, kvs: map<string, string>,
                     keys: seq<string>, k: string)
    requires k in keys && k in kvs
    ensures var after := data + WrapMap(project, category, kvs);
            var wrapped := seq(|keys|, i requires 0 <= i < |keys| => Wrap(project, category, keys[i]));
            var c := Collect(keys, MGetReply(after, wrapped), |keys|);
            k in c && c[k] == Some(kvs[k])
  {
    MGetReadsStore(project, category, data + WrapMap(project, category, kvs), keys, k);
  }

  /** `exists` as written against the corrected one: on a stored key they disagree. */
  lemma ExistsDiscrepancy(data: map<string, string>, w: string)
    requires w in data
    ensures ExistsReply(data, w) == IntReply(1) && ExistsReply(data, w) != StrReply("1")
  {
  }
}
