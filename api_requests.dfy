/**
 * The requests that the `API` client of devstack_api.py sends, with the HTTP exchange cut away:
 * verbs, hosts, paths, bodies and headers, and the pure computations that choose them.
 */
module ApiRequests {
  import opened Wrappers
  import opened Decimal
  import opened Text

  datatype Verb = GET | POST | DELETE

  /** A JSON scalar as the server sends it: ids may be strings or numbers. */
  datatype Scalar = JStr(s: string) | JInt(n: int)

  /** Python's `str()` of a scalar. */
  function Str(v: Scalar): (r: string)
    ensures v.JStr? ==> r == v.s
    ensures v.JInt? ==> ParseInt(r) == Some(v.n)
  {
    match v
    case JStr(s) => s
    case JInt(n) => IntToStringRoundTrip(n); IntToString(n)
  }

  /** A request body, before `json.dumps`. */
  datatype Body =
    | NoBody
      /** `{"auth": {"passwordCredentials": {"username": ..., "password": ...}}}` */
    | PasswordAuth(username: string, password: string)
      /** the same with `"tenantId"` beside `"passwordCredentials"`; `None` is JSON `null` */
    | TenantAuth(username: string, password: string, tenantId: Option<string>)
      /** `{"volume": {"size": ...}}` */
    | VolumeCreate(size: int)

  /** One outgoing request, with the headers it carried when it was sent. */
  datatype Request = Request(verb: Verb, host: string, path: string, body: Body, headers: map<string, string>)

  /** An entry `{"name": ..., "id": ...}` of the tenant list or of the user list. */
  datatype Entry = Entry(name: string, id: Scalar)

  /** An entry of a volume listing; the client reads only its `"id"`. */
  datatype Volume = Volume(id: Scalar)

  const ContentTypeKey := "Content-Type"
  const JsonType := "application/json"
  const AuthTokenKey := "X-Auth-Token"
  const KeystonePort := ":5000"
  const KeystoneAdminPort := ":35357"
  const CinderPort := ":8776"
  const DefaultUser := "demo"
  const DefaultPassword := "nova"
  const TokensPath := "/v2.0/tokens"
  const TenantsPath := "/v2.0/tenants"
  const UsersPath := "/v2.0/users"
  const TenantPlaceholder := "tenantid"
  const AdminName := "admin"

  /** Python's `x or d` for an optional string: `None` and `""` are false. */
  function OrElse(x: Option<string>, d: string): (r: string)
    ensures r == d || (x == Some(r) && r != "")
    ensures x.Some? && x.value != "" ==> r == x.value
  {
    if x.Some? && x.value != "" then x.value else d
  }

  /** `headers or self.default_header`: a missing or empty header dictionary falls back to the default. */
  function EffectiveHeaders(headers: Option<map<string, string>>, default: map<string, string>): (r: map<string, string>)
    ensures r == default || (headers == Some(r) && r != map[])
    ensures headers.Some? && headers.value != map[] ==> r == headers.value
  {
    if headers.None? || headers.value == map[] then default else headers.value
  }

  /** The body of the unscoped token request. Both fields are chosen by `user or ...`, so a
      caller-supplied `user` is sent as the password too, and the `password` argument is never read. */
  function UnscopedAuthBody(user: Option<string>, osuser: string, ospassword: string): (b: Body)
    ensures b.PasswordAuth?
    ensures user.Some? && user.value != "" ==> b.username == user.value && b.password == user.value
    ensures user.None? || user.value == "" ==> b.username == osuser && b.password == ospassword
  {
    PasswordAuth(OrElse(user, osuser), OrElse(user, ospassword))
  }

  /** The index of the first entry named `name`, in list order; `None` when no entry has that name. */
  function FirstNamed(entries: seq<Entry>, name: string): (r: Option<nat>)
    ensures r.Some? ==> r.value < |entries| && entries[r.value].name == name
    ensures r.Some? ==> forall j :: 0 <= j < r.value ==> entries[j].name != name
    ensures r.None? ==> forall j :: 0 <= j < |entries| ==> entries[j].name != name
    decreases |entries|
  {
    if entries == [] then None
    else if entries[0].name == name then Some(0)
    else match FirstNamed(entries[1..], name)
      case None => None
      case Some(k) => Some(k + 1)
  }

  /** The fixed storage-service paths the client uses. */
  datatype Endpoint =
    | Volumes          // cinder_list, cinder_create
    | VolumesInUse     // cinder_list_filter
    | VolumesDetail    // cinder_list_detail
    | VolumesV2        // cinder_list_v2
    | VolumesDetailV2  // cinder_list_detail_v2
    | SnapshotsV2      // cinder_snapshot_list
    | VolumeById(id: string)  // cinder_delete

  /** The API version part of the path: "/v2/" for the three v2 endpoints, "/v1/" otherwise. */
  function VersionPrefix(e: Endpoint): string {
    if e.VolumesV2? || e.VolumesDetailV2? || e.SnapshotsV2? then "/v2/" else "/v1/"
  }

  /** What follows the tenant id; it always begins with '/' or is "/volumes?...". */
  function Tail(e: Endpoint): string {
    match e
    case Volumes => "/volumes"
    case VolumesInUse => "/volumes?status=in-use"
    case VolumesDetail => "/volumes/detail"
    case VolumesV2 => "/volumes"
    case VolumesDetailV2 => "/volumes/detail"
    case SnapshotsV2 => "/snapshots"
    case VolumeById(id) => "/volumes/" + id
  }

  /** `'/<version>/%s<tail>' % tenant_id`. */
  function PathOf(tid: string, e: Endpoint): (r: string)
    ensures |r| > 4 + |tid| && r[..4] == VersionPrefix(e)
  {
    VersionPrefix(e) + tid + Tail(e)
  }

  /** The path templates, written out: `/v1/<tid>/volumes`, `?status=in-use`, `/detail`, their `/v2/`
      forms, `/v2/<tid>/snapshots` and `/v1/<tid>/volumes/<id>`. */
  lemma PathTemplates(tid: string, id: string)
    ensures PathOf(tid, Volumes) == "/v1/" + tid + "/volumes"
    ensures PathOf(tid, VolumesInUse) == "/v1/" + tid + "/volumes?status=in-use"
    ensures PathOf(tid, VolumesDetail) == "/v1/" + tid + "/volumes/detail"
    ensures PathOf(tid, VolumesV2) == "/v2/" + tid + "/volumes"
    ensures PathOf(tid, VolumesDetailV2) == "/v2/" + tid + "/volumes/detail"
    ensures PathOf(tid, SnapshotsV2) == "/v2/" + tid + "/snapshots"
    ensures PathOf(tid, VolumeById(id)) == "/v1/" + tid + "/volumes/" + id
  {
  }

  /** Recovers the tenant id and the endpoint from a storage-service path. */
  function ParsePath(p: string): Option<(string, Endpoint)> {
    if |p| < 4 || (p[..4] != "/v1/" && p[..4] != "/v2/") then None
    else
      var rest := p[4..];
      var tid := Split(rest, "/")[0];
      ParseTail(p[..4] == "/v1/", tid, rest[|tid|..])
  }

  /** The endpoint named by what follows the tenant id. */
  function ParseTail(v1: bool, tid: string, tail: string): Option<(string, Endpoint)> {
    if tail == "/volumes" then Some((tid, if v1 then Volumes else VolumesV2))
    else if tail == "/volumes/detail" then Some((tid, if v1 then VolumesDetail else VolumesDetailV2))
    else if v1 && tail == "/volumes?status=in-use" then Some((tid, VolumesInUse))
    else if !v1 && tail == "/snapshots" then Some((tid, SnapshotsV2))
    else if v1 && StartsWith(tail, "/volumes/") then Some((tid, VolumeById(tail[9..])))
    else None
  }

  lemma ParseTailOf(tid: string, e: Endpoint)
    requires e != VolumeById("detail")
    ensures ParseTail(VersionPrefix(e) == "/v1/", tid, Tail(e)) == Some((tid, e))
  {
    if e.VolumeById? {
      var tail := Tail(e);
      var id := e.id;
      assert tail[..9] == "/volumes/" && tail[9..] == id;
      assert tail != "/volumes" by { assert |tail| != 8; }
      assert tail != "/volumes/detail" by { assert "/volumes/detail"[9..] == "detail"; }
      assert tail != "/volumes?status=in-use" by { assert tail[8] != "/volumes?status=in-use"[8]; }
    }
  }

  lemma ParsePathOf(v: string, tid: string, tail: string)
    requires v == "/v1/" || v == "/v2/"
    requires forall j :: 0 <= j < |tid| ==> tid[j] != '/'
    requires |tail| >= 1 && tail[0] == '/'
    ensures ParsePath(v + tid + tail) == ParseTail(v == "/v1/", tid, tail)
  {
    var p := v + tid + tail;
    var rest := tid + ['/'] + tail[1..];
    assert p == v + rest;
    assert p[..4] == v && p[4..] == rest;
    SplitAppendElem(tid, '/', tail[1..]);
    assert Split(rest, "/")[0] == tid;
    assert rest[|tid|..] == tail;
  }

  /** Every path the client builds names its tenant and endpoint unambiguously, as long as the
      tenant id has no '/' and no volume is called "detail" (see `DetailIdCollision`). */
  lemma PathRoundTrip(tid: string, e: Endpoint)
    requires forall j :: 0 <= j < |tid| ==> tid[j] != '/'
    requires e != VolumeById("detail")
    ensures ParsePath(PathOf(tid, e)) == Some((tid, e))
  {
    ParsePathOf(VersionPrefix(e), tid, Tail(e));
    ParseTailOf(tid, e);
  }

  /** Deleting a volume whose id is "detail" addresses the detailed-listing path. */
  lemma DetailIdCollision(tid: string)
    ensures PathOf(tid, VolumeById("detail")) == PathOf(tid, VolumesDetail)
  {
  }

  /** `vol_sizes` after `cinder_create_many`'s `extend`: padded with 1s up to `vol_number`. */
  function PaddedSizes(sizes: seq<int>, volNumber: int): (r: seq<int>)
    ensures |r| == (if volNumber > |sizes| then volNumber else |sizes|)
    ensures r[..|sizes|] == sizes
    ensures forall k :: |sizes| <= k < |r| ==> r[k] == 1
  {
    if volNumber > |sizes| then sizes + seq(volNumber - |sizes|, _ => 1) else sizes
  }

  /** The sizes `cinder_create_many` creates, in order: `sizes[i]` while the list lasts, then 1. */
  function CreatedSizes(sizes: seq<int>, volNumber: int): (r: seq<int>)
    ensures |r| == (if volNumber > 0 then volNumber else 0)
    ensures forall k :: 0 <= k < |r| ==> r[k] == (if k < |sizes| then sizes[k] else 1)
  {
    var padded := PaddedSizes(sizes, volNumber);
    assert forall k :: 0 <= k < |sizes| ==> padded[k] == padded[..|sizes|][k];
    padded[..if volNumber > 0 then volNumber else 0]
  }

  /** The docstring's examples: (4, [1, 2, 3, 4]) and (4, [3, 2]) create 1, 2, 3, 4 and 3, 2, 1, 1. */
  lemma CreateManyExamples()
    ensures CreatedSizes([1, 2, 3, 4], 4) == [1, 2, 3, 4]
    ensures CreatedSizes([3, 2], 4) == [3, 2, 1, 1]
    ensures PaddedSizes([3, 2], 4) == [3, 2, 1, 1]
    ensures CreatedSizes([3, 2], 1) == [3] && PaddedSizes([3, 2], 1) == [3, 2]
  {
  }
}
