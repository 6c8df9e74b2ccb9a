/**
 * The `API` client object of devstack_api.py. The HTTP exchange is replaced by an append-only log
 * of the requests sent; what the servers answer (tokens, tenant, user and volume lists) comes in
 * as parameters.
 */
module DevstackApi {
  import opened Wrappers
  import opened Text
  import opened ApiRequests

  /** A Python list of volume sizes, held by reference, so that the caller sees in-place changes. */
  class SizeList {
    var items: seq<int>

    constructor (items: seq<int>)
      ensures this.items == items
    {
      this.items := items;
    }

    /** `list.extend(xs)`. */
    method Extend(xs: seq<int>)
      modifies this
      ensures items == old(items) + xs
    {
      items := items + xs;
    }
  }

  class Api {
    var url: string
    var osuser: string
    var ospassword: string
    var keystoneHost: string
    var keystoneAdminHost: string
    var cinderHost: string
    /** `None` until `__init__` has resolved the tenant. */
    var tenantId: Option<string>
    /** `None` until `__init__` has obtained the scoped token. */
    var token: Option<string>
    /** Set by `get_admin_id` once a user named "admin" is found. */
    var adminId: Option<Scalar>
    /** The header dictionary shared by all requests, updated in place. */
    var defaultHeader: map<string, string>
    /** Every request sent so far, oldest first. */
    var requests: seq<Request>

    /** Hosts derive from the url; the shared header always says the body is JSON and holds at most
        the content type and the token. */
    ghost predicate Valid()
      reads this
    {
      keystoneHost == url + KeystonePort &&
      keystoneAdminHost == url + KeystoneAdminPort &&
      cinderHost == url + CinderPort &&
      ContentTypeKey in defaultHeader && defaultHeader[ContentTypeKey] == JsonType &&
      defaultHeader.Keys <= {ContentTypeKey, AuthTokenKey}
    }

    /** The state `__init__` leaves behind: tenant and token both resolved. */
    ghost predicate Ready()
      reads this
    {
      Valid() && tenantId.Some? && token.Some?
    }

    /** The shared header once the current token has been stored in it. */
    function AuthHeader(): map<string, string>
      reads this
      requires token.Some?
    {
      defaultHeader[AuthTokenKey := token.value]
    }

    /** Lines 11-21 of `__init__`: credentials with their defaults, the three hosts, the header. */
    constructor (osurl: Option<string>, osuser: Option<string>, ospassword: Option<string>, wlan0Ip: string)
      ensures Valid()
      ensures url == OrElse(osurl, wlan0Ip)
      ensures this.osuser == OrElse(osuser, DefaultUser) && this.ospassword == OrElse(ospassword, DefaultPassword)
      ensures keystoneHost == url + ":5000" && keystoneAdminHost == url + ":35357" && cinderHost == url + ":8776"
      ensures tenantId == None && token == None && adminId == None
      ensures defaultHeader == map[ContentTypeKey := JsonType] && requests == []
    {
      url := OrElse(osurl, wlan0Ip);
      this.osuser := OrElse(osuser, DefaultUser);
      this.ospassword := OrElse(ospassword, DefaultPassword);
      tenantId := None;
      token := None;
      adminId := None;
      defaultHeader := map[ContentTypeKey := JsonType];
      keystoneHost := url + KeystonePort;
      keystoneAdminHost := url + KeystoneAdminPort;
      cinderHost := url + CinderPort;
      requests := [];
    }

    /** `send_request`, `get` and `post` without the connection: the request goes into the log with
        the given headers, or the shared header when none (or an empty dictionary) is given. */
    method SendRequest(verb: Verb, host: string, path: string, body: Body, headers: Option<map<string, string>>)
      modifies this`requests
      ensures requests == old(requests) + [Request(verb, host, path, body, EffectiveHeaders(headers, defaultHeader))]
    {
      requests := requests + [Request(verb, host, path, body, EffectiveHeaders(headers, defaultHeader))];
    }

    /** `get_tenant_id_for_user`: an unscoped token request, the tenant listing (answered by
        `tenants`), then the `str()` of the id of the first tenant named `user or osuser`;
        `None` for the bare `raise` when no tenant has that name. */
    method GetTenantIdForUser(user: Option<string>, password: Option<string>, unscopedToken: string,
                              tenants: seq<Entry>) returns (tid: Option<string>)
      requires Valid()
      modifies this`requests
      ensures requests == old(requests) + [
        Request(POST, keystoneHost, TokensPath, UnscopedAuthBody(user, osuser, ospassword), defaultHeader),
        Request(GET, keystoneHost, TenantsPath, NoBody, map[AuthTokenKey := unscopedToken])]
      ensures tid.Some? <==> exists k :: 0 <= k < |tenants| && tenants[k].name == OrElse(user, osuser)
      ensures tid.Some? ==> (exists k :: 0 <= k < |tenants| && tid.value == Str(tenants[k].id) &&
                                 tenants[k].name == OrElse(user, osuser) &&
                                 forall j :: 0 <= j < k ==> tenants[j].name != OrElse(user, osuser))
    {
      assert ContentTypeKey in defaultHeader;
      SendRequest(POST, keystoneHost, TokensPath, UnscopedAuthBody(user, osuser, ospassword), Some(defaultHeader));
      assert AuthTokenKey in map[AuthTokenKey := unscopedToken];
      SendRequest(GET, keystoneHost, TenantsPath, NoBody, Some(map[AuthTokenKey := unscopedToken]));
      match FirstNamed(tenants, OrElse(user, osuser))
      case Some(k) => tid := Some(Str(tenants[k].id));
      case None => tid := None;
    }

    /** `get_token`: the scoped token request for the stored credentials and tenant, sent with a
        fresh JSON header; the answer's token id, through `str()`, is returned. */
    method GetToken(scopedToken: Scalar) returns (t: string)
      modifies this`requests
      ensures requests == old(requests) + [
        Request(POST, keystoneHost, TokensPath, TenantAuth(osuser, ospassword, tenantId), map[ContentTypeKey := JsonType])]
      ensures t == Str(scopedToken)
    {
      assert ContentTypeKey in map[ContentTypeKey := JsonType];
      SendRequest(POST, keystoneHost, TokensPath, TenantAuth(osuser, ospassword, tenantId), Some(map[ContentTypeKey := JsonType]));
      t := Str(scopedToken);
    }

    /** `headers = self.default_header; headers["X-Auth-Token"] = self.token`: the shared map is
        updated in place, its content type untouched. */
    method StoreToken()
      requires Ready()
      modifies this`defaultHeader
      ensures Ready()
      ensures defaultHeader == old(AuthHeader())
      ensures defaultHeader[ContentTypeKey] == JsonType && defaultHeader[AuthTokenKey] == token.value
    {
      defaultHeader := defaultHeader[AuthTokenKey := token.value];
    }

    /** `keystone_get`: a GET on the identity admin port with the token in the shared header. */
    method KeystoneGet(path: string)
      requires Ready()
      modifies this`defaultHeader, this`requests
      ensures Ready() && defaultHeader == old(AuthHeader())
      ensures requests == old(requests) + [Request(GET, url + ":35357", path, NoBody, defaultHeader)]
    {
      StoreToken();
      assert ContentTypeKey in defaultHeader;
      SendRequest(GET, url + KeystoneAdminPort, path, NoBody, Some(defaultHeader));
    }

    /** `get_admin_id`: lists the users (answered by `users`) and records the id of the first one
        named "admin"; with no such user the admin id stays as it was. */
    method GetAdminId(users: seq<Entry>)
      requires Ready()
      modifies this`defaultHeader, this`requests, this`adminId
      ensures Ready() && defaultHeader == old(AuthHeader())
      ensures requests == old(requests) + [Request(GET, keystoneAdminHost, UsersPath, NoBody, defaultHeader)]
      ensures (exists k :: 0 <= k < |users| && users[k].name == AdminName) ==>
        exists k :: 0 <= k < |users| && users[k].name == AdminName && adminId == Some(users[k].id) &&
          forall j :: 0 <= j < k ==> users[j].name != AdminName
      ensures (forall k :: 0 <= k < |users| ==> users[k].name != AdminName) ==> adminId == old(adminId)
    {
      StoreToken();
      KeystoneGet(UsersPath);
      match FirstNamed(users, AdminName)
      case Some(k) => adminId := Some(users[k].id);
      case None =>
    }

    /** A GET on the storage service, with the token stored in the shared header first. */
    method CinderGetPath(path: string)
      requires Ready()
      modifies this`defaultHeader, this`requests
      ensures Ready() && defaultHeader == old(AuthHeader())
      ensures requests == old(requests) + [Request(GET, cinderHost, path, NoBody, defaultHeader)]
    {
      StoreToken();
      assert ContentTypeKey in defaultHeader;
      SendRequest(GET, cinderHost, path, NoBody, Some(defaultHeader));
    }

    /** `cinder_create`: POST `{"volume": {"size": size}}` to `/v1/<tenant>/volumes`. */
    method CinderCreate(size: int)
      requires Ready()
      modifies this`defaultHeader, this`requests
      ensures Ready() && defaultHeader == old(AuthHeader())
      ensures requests == old(requests) +
        [Request(POST, cinderHost, PathOf(tenantId.value, Volumes), VolumeCreate(size), defaultHeader)]
    {
      StoreToken();
      assert ContentTypeKey in defaultHeader;
      SendRequest(POST, cinderHost, PathOf(tenantId.value, Volumes), VolumeCreate(size), Some(defaultHeader));
    }

    /** `cinder_list`: GET `/v1/<tenant>/volumes`. */
    method CinderList()
      requires Ready()
      modifies this`defaultHeader, this`requests
      ensures Ready() && defaultHeader == old(AuthHeader())
      ensures requests == old(requests) + [Request(GET, cinderHost, PathOf(tenantId.value, Volumes), NoBody, defaultHeader)]
    {
      CinderGetPath(PathOf(tenantId.value, Volumes));
    }

    /** `cinder_list_filter`: GET `/v1/<tenant>/volumes?status=in-use`. */
    method CinderListFilter()
      requires Ready()
      modifies this`defaultHeader, this`requests
      ensures Ready() && defaultHeader == old(AuthHeader())
      ensures requests == old(requests) +
        [Request(GET, cinderHost, PathOf(tenantId.value, VolumesInUse), NoBody, defaultHeader)]
    {
      CinderGetPath(PathOf(tenantId.value, VolumesInUse));
    }

    /** `cinder_list_detail`: GET `/v1/<tenant>/volumes/detail`. */
    method CinderListDetail()
      requires Ready()
      modifies this`defaultHeader, this`requests
      ensures Ready() && defaultHeader == old(AuthHeader())
      ensures requests == old(requests) +
        [Request(GET, cinderHost, PathOf(tenantId.value, VolumesDetail), NoBody, defaultHeader)]
    {
      CinderGetPath(PathOf(tenantId.value, VolumesDetail));
    }

    /** `cinder_list_v2`: GET `/v2/<tenant>/volumes`. */
    method CinderListV2()
      requires Ready()
      modifies this`defaultHeader, this`requests
      ensures Ready() && defaultHeader == old(AuthHeader())
      ensures requests == old(requests) + [Request(GET, cinderHost, PathOf(tenantId.value, VolumesV2), NoBody, defaultHeader)]
    {
      CinderGetPath(PathOf(tenantId.value, VolumesV2));
    }

    /** `cinder_get`: GET the caller's path with every "tenantid" replaced by the tenant id. */
    method CinderGet(getReqStr: string)
      requires Ready()
      modifies this`defaultHeader, this`requests
      ensures Ready() && defaultHeader == old(AuthHeader())
      ensures requests == old(requests) +
        [Request(GET, cinderHost, Replace(getReqStr, TenantPlaceholder, tenantId.value), NoBody, defaultHeader)]
    {
      CinderGetPath(Replace(getReqStr, TenantPlaceholder, tenantId.value));
    }

    /** `cinder_list_detail_v2`: GET `/v2/<tenant>/volumes/detail`. */
    method CinderListDetailV2()
      requires Ready()
      modifies this`defaultHeader, this`requests
      ensures Ready() && defaultHeader == old(AuthHeader())
      ensures requests == old(requests) +
        [Request(GET, cinderHost, PathOf(tenantId.value, VolumesDetailV2), NoBody, defaultHeader)]
    {
      CinderGetPath(PathOf(tenantId.value, VolumesDetailV2));
    }

    /** `cinder_snapshot_list`: GET `/v2/<tenant>/snapshots`. */
    method CinderSnapshotList()
      requires Ready()
      modifies this`defaultHeader, this`requests
      ensures Ready() && defaultHeader == old(AuthHeader())
      ensures requests == old(requests) + [Request(GET, cinderHost, PathOf(tenantId.value, SnapshotsV2), NoBody, defaultHeader)]
    {
      CinderGetPath(PathOf(tenantId.value, SnapshotsV2));
    }

    /** `cinder_delete`: DELETE `/v1/<tenant>/volumes/<id>`, sent with the shared header. */
    method CinderDelete(volId: string)
      requires Ready()
      modifies this`defaultHeader, this`requests
      ensures Ready() && defaultHeader == old(AuthHeader())
      ensures requests == old(requests) +
        [Request(DELETE, cinderHost, PathOf(tenantId.value, VolumeById(volId)), NoBody, defaultHeader)]
    {
      StoreToken();
      SendRequest(DELETE, cinderHost, PathOf(tenantId.value, VolumeById(volId)), NoBody, None);
    }

    /** `cinder_delete_all`: lists the volumes (answered by `volumes`), collects `str()` of each id,
        then deletes them one by one in listing order. */
    method CinderDeleteAll(volumes: seq<Volume>)
      requires Ready()
      modifies this`defaultHeader, this`requests
      ensures Ready() && defaultHeader == old(AuthHeader())
      ensures |requests| == |old(requests)| + 1 + |volumes|
      ensures requests[..|old(requests)| + 1] ==
        old(requests) + [Request(GET, cinderHost, PathOf(tenantId.value, Volumes), NoBody, defaultHeader)]
      ensures forall k :: 0 <= k < |volumes| ==>
        requests[|old(requests)| + 1 + k] ==
          Request(DELETE, cinderHost, PathOf(tenantId.value, VolumeById(Str(volumes[k].id))), NoBody, defaultHeader)
    {
      CinderList();
      var volumeIds: seq<string> := [];
      for i := 0 to |volumes|
        invariant |volumeIds| == i
        invariant forall k :: 0 <= k < i ==> volumeIds[k] == Str(volumes[k].id)
      {
        volumeIds := volumeIds + [Str(volumes[i].id)];
      }
      ghost var listed := requests;
      ghost var deletes: seq<Request> := [];
      for j := 0 to |volumeIds|
        invariant Ready() && defaultHeader == old(AuthHeader())
        invariant listed == old(requests) + [Request(GET, cinderHost, PathOf(tenantId.value, Volumes), NoBody, defaultHeader)]
        invariant requests == listed + deletes && |deletes| == j
        invariant forall k :: 0 <= k < j ==>
          deletes[k] == Request(DELETE, cinderHost, PathOf(tenantId.value, VolumeById(volumeIds[k])), NoBody, defaultHeader)
      {
        CinderDelete(volumeIds[j]);
        deletes := deletes + [Request(DELETE, cinderHost, PathOf(tenantId.value, VolumeById(volumeIds[j])), NoBody, defaultHeader)];
      }
      assert requests[..|old(requests)| + 1] == listed;
      forall k | 0 <= k < |volumes|
        ensures requests[|old(requests)| + 1 + k] ==
          Request(DELETE, cinderHost, PathOf(tenantId.value, VolumeById(Str(volumes[k].id))), NoBody, defaultHeader)
      {
        assert volumeIds[k] == Str(volumes[k].id);
      }
    }

    /** `cinder_create_many`: pads the caller's size list in place with 1s up to `volNumber`, then
        creates `volNumber` volumes of sizes `volSizes[0]`, `volSizes[1]`, ... in index order. */
    method CinderCreateMany(volNumber: int, volSizes: SizeList)
      requires Ready()
      modifies this`defaultHeader, this`requests, volSizes
      ensures Ready()
      ensures volSizes.items == PaddedSizes(old(volSizes.items), volNumber)
      ensures defaultHeader == if volNumber > 0 then old(AuthHeader()) else old(defaultHeader)
      ensures |requests| == |old(requests)| + |CreatedSizes(old(volSizes.items), volNumber)|
      ensures requests[..|old(requests)|] == old(requests)
      ensures forall k :: 0 <= k < |CreatedSizes(old(volSizes.items), volNumber)| ==>
        requests[|old(requests)| + k] ==
          Request(POST, cinderHost, PathOf(tenantId.value, Volumes),
                  VolumeCreate(CreatedSizes(old(volSizes.items), volNumber)[k]), defaultHeader)
    {
      ghost var sizes := volSizes.items;
      if volNumber > |volSizes.items| {
        volSizes.Extend(seq(volNumber - |volSizes.items|, _ => 1));
      }
      assert volSizes.items == PaddedSizes(sizes, volNumber);
      ghost var created := CreatedSizes(sizes, volNumber);
      var volIndex := 0;
      while volIndex < volNumber
        invariant 0 <= volIndex <= |created|
        invariant Ready() && volSizes.items == PaddedSizes(sizes, volNumber)
        invariant defaultHeader == if volIndex > 0 then old(AuthHeader()) else old(defaultHeader)
        invariant |requests| == |old(requests)| + volIndex && requests[..|old(requests)|] == old(requests)
        invariant forall k :: 0 <= k < volIndex ==>
          requests[|old(requests)| + k] == Request(POST, cinderHost, PathOf(tenantId.value, Volumes), VolumeCreate(created[k]), old(AuthHeader()))
      {
        CinderCreate(volSizes.items[volIndex]);
        volIndex := volIndex + 1;
      }
    }
  }

  /** The whole of `__init__`: build the client, resolve the tenant of `osuser` (the tenant listing
      is answered by `tenants`) and obtain the scoped token. `None` when `__init__` raises because
      no tenant has the user's name. */
  method NewApi(osurl: Option<string>, osuser: Option<string>, ospassword: Option<string>, wlan0Ip: string,
                unscopedToken: string, tenants: seq<Entry>, scopedToken: Scalar) returns (api: Option<Api>)
    ensures api.Some? <==> exists k :: 0 <= k < |tenants| && tenants[k].name == OrElse(osuser, DefaultUser)
    ensures api.Some? ==> fresh(api.value) && api.value.Ready()
    ensures api.Some? ==> (api.value.url == OrElse(osurl, wlan0Ip) &&
      api.value.osuser == OrElse(osuser, DefaultUser) && api.value.ospassword == OrElse(ospassword, DefaultPassword))
    ensures api.Some? ==> (exists k :: 0 <= k < |tenants| && tenants[k].name == OrElse(osuser, DefaultUser) &&
                              (forall j :: 0 <= j < k ==> tenants[j].name != OrElse(osuser, DefaultUser)) &&
                              api.value.tenantId == Some(Str(tenants[k].id)))
    ensures api.Some? ==> api.value.token == Some(Str(scopedToken)) && api.value.adminId == None
    ensures api.Some? ==> api.value.defaultHeader == map[ContentTypeKey := JsonType]
    ensures api.Some? ==> var a := api.value; a.requests == [
      Request(POST, a.keystoneHost, TokensPath, PasswordAuth(a.osuser, a.ospassword), map[ContentTypeKey := JsonType]),
      Request(GET, a.keystoneHost, TenantsPath, NoBody, map[AuthTokenKey := unscopedToken]),
      Request(POST, a.keystoneHost, TokensPath, TenantAuth(a.osuser, a.ospassword, a.tenantId), map[ContentTypeKey := JsonType])]
  {
    var a := new Api(osurl, osuser, ospassword, wlan0Ip);
    var tid := a.GetTenantIdForUser(None, None, unscopedToken, tenants);
    if tid.None? {
      return None;
    }
    a.tenantId := tid;
    var t := a.GetToken(scopedToken);
    a.token := Some(t);
    api := Some(a);
  }

  /** The default `vol_sizes=[1]` is one list, made once and shared by every call that omits the
      argument: after two such calls it holds as many 1s as the larger request (at least one). */
  method CreateManyWithDefaultTwice(api: Api, shared: SizeList, first: int, second: int)
    requires api.Ready() && shared.items == [1]
    modifies api`defaultHeader, api`requests, shared
    ensures api.Ready()
    ensures var n := if first >= second then first else second;
      shared.items == seq(if n > 1 then n else 1, _ => 1)
  {
    api.CinderCreateMany(first, shared);
    api.CinderCreateMany(second, shared);
  }
}
