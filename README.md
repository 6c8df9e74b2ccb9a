# openstack-utils client core, in Dafny

This project models the two pieces of logic in `openstack-utils` that remain once the operating
system and the network are cut away:

* **Interface-table decoding** (`ifconfig.py`). The `SIOCGIFCONF` ioctl fills a 4096-byte buffer
  (`max_possible * 32`) with 40-byte `struct ifreq` records (netdevice(7)) and reports how many
  bytes it used. `all_interfaces` walks the buffer record by record, cuts each 16-byte name field at
  its first NUL and takes bytes 20..23 as the IPv4 address. `format_ip` writes an address in dotted
  decimal. `get_interface_dict` folds the records into a name → address dictionary. The buffer and
  the byte count are inputs here. Python's slice clamping is modelled, so a record that runs past
  the end of the buffer yields a short name or address. An address shorter than 4 bytes makes
  `format_ip` raise `IndexError`; the model returns `None` for that.
* **The `API` client** (`devstack_api.py`). This is a class with the source's fields (`url`,
  credentials, the three hosts, `tenant_id`, `token`, `admin_id`) and the shared `default_header`
  map, which the methods update in place. There is also an append-only log of the requests sent,
  each recorded with its verb, host, path, body and headers. Server answers are parameters: the
  unscoped and scoped tokens, the tenant list, the user list and the volume list. The model covers
  the authentication handshake of `__init__`, the first-match tenant and admin searches, every
  `cinder_*` path template, the `"tenantid"` substitution of `cinder_get`, the per-volume delete
  loop of `cinder_delete_all`, and the in-place padding of the caller's size list in
  `cinder_create_many`. That list is a `SizeList` object held by reference, so the mutable default
  argument `vol_sizes=[1]` is one shared object whose padding persists from call to call.

Modules: `Wrappers` (Option), `Decimal` (Python `str()` of integers and its inverse), `Text`
(Python `split`, `join` and `replace` over sequences), `Ifconfig`, `ApiRequests` (request shapes,
paths, searches, padding) and `DevstackApi` (the class).

Some things the proofs bring out:

* The buffer holds only 102 whole records (4080 bytes), not 128 (`Ifconfig.WholeRecordsInBuffer`).
  When the byte count is a whole number of records, every parsed address has 4 bytes
  (`Ifconfig.FullBufferAddrs`).
* `get_tenant_id_for_user(user, password)` never reads `password`. A non-empty `user` is sent as
  both the username and the password (`ApiRequests.UnscopedAuthBody`). The only caller,
  `__init__`, passes no arguments. On that path the body carries the stored credentials.
* `cinder_delete("detail")` targets the same path as `cinder_list_detail`
  (`ApiRequests.DetailIdCollision`). Apart from that case, and as long as the tenant id has no
  '/', every path the client builds can be parsed back to its tenant and endpoint
  (`ApiRequests.PathRoundTrip`).

The model follows the code, which has no typed errors. `cinder_delete_all` and `cinder_create_many` do not collect per-request failures.
DELETE results are discarded. A missing tenant ends `__init__` with a bare `raise`, which the
model shows as `NewApi` returning `None`.

## Model

| member | source | states |
|---|---|---|
| `Ifconfig.Slice` | ifconfig.py:33-34 | Python slicing `s[i:j]` clamps both ends to the length: the exact slice `s[i..j]` when `j <= |s|`, and otherwise the tail from `min(i, |s|)` to the end, with its clamped length |
| `Ifconfig.RecordAt` | ifconfig.py:33-34 | the record at offset i has a name of at most 16 bytes and an address of at most 4 bytes, the address being bytes i+20..i+23 when the buffer reaches that far |
| `Ifconfig.NumRecords` | ifconfig.py:32 | the number of offsets 0, 40, 80, ... below `outbytes` is the least k with `outbytes <= 40k` (ceil(outbytes/40), 0 for `outbytes <= 0`) |
| `Ifconfig.NumRecordsCounts` | ifconfig.py:32 | `range(0, outbytes, 40)` gives one record per offset `40k < outbytes`, i.e. ceil(outbytes/40) records, none for `outbytes <= 0` |
| `Ifconfig.ParseRecords` | ifconfig.py:30-36 | every record lies at an offset below `outbytes`, record k is the one at offset 40k, and no offset below `outbytes` is missed |
| `Ifconfig.AllInterfaces` | ifconfig.py:30-36 | the loop yields exactly ceil(outbytes/40) records in buffer order, record k being the one at offset 40k |
| `Ifconfig.RecordName` | ifconfig.py:33 | a parsed name is the prefix of the 16-byte name field up to its first NUL: no NUL in it, at most 16 bytes, followed by NUL or by the field's end |
| `Ifconfig.RecordAddr` | ifconfig.py:34 | a parsed address is bytes 20..23 of its record, and it has 4 bytes exactly when `offset + 24 <= |buffer|` |
| `Ifconfig.WholeRecordsInBuffer` | ifconfig.py:21-22 | the 4096-byte buffer (`max_possible * 32`) holds 102 whole 40-byte records and 16 bytes over, so a whole-record count covers at most 102 records |
| `Ifconfig.FullBufferAddrs` | ifconfig.py:21-22 | with the 4096-byte buffer and a byte count that is a whole number of 40-byte records, every parsed address has 4 bytes |
| `Ifconfig.FormatIp` | ifconfig.py:44-47 | `format_ip` succeeds exactly when the address has at least 4 bytes (`IndexError` otherwise) |
| `Ifconfig.FormatIpFields` | ifconfig.py:44-47 | the result has exactly four '.'-separated fields, field k being the decimal text of byte k |
| `Ifconfig.FormatIpRoundTrip` | ifconfig.py:44-47 | reading the dotted quad back gives the first four bytes of the address |
| `Ifconfig.FormatIpLoopback` | ifconfig.py:41-42 | `format_ip('\x7f\x00\x00\x01')` is "127.0.0.1" |
| `Ifconfig.FormatIpLength` | ifconfig.py:44-47 | a formatted address is 7 to 15 characters long, from "0.0.0.0" to "255.255.255.255" |
| `Ifconfig.DictFold` | ifconfig.py:52-53 | the dictionary loop only adds keys: every key present before is present after |
| `Ifconfig.InterfaceDict` | ifconfig.py:50-54 | the dictionary exists exactly when every address has at least 4 bytes, and its keys are then exactly the parsed names |
| `Ifconfig.DictFoldDefined` | ifconfig.py:52-53 | the dictionary loop completes exactly when every address can be formatted |
| `Ifconfig.DictFoldKeys` | ifconfig.py:51-53 | the keys after the loop are the keys already present plus every parsed name |
| `Ifconfig.DictFoldLast` | ifconfig.py:52-53 | a name that occurs more than once maps to the formatted address of its last occurrence |
| `Ifconfig.DictFoldUntouched` | ifconfig.py:52-53 | a key that no record names keeps its value |
| `Ifconfig.InterfaceDictSpec` | ifconfig.py:50-54 | from an empty dictionary: defined iff all addresses have 4 bytes, keys are exactly the parsed names, each name maps to its last record's address |
| `Ifconfig.GetInterfaceDict` | ifconfig.py:49-54 | `get_interface_dict` on the ioctl's buffer and byte count: defined iff every parsed address has 4 bytes, keyed by exactly the parsed names, last occurrence wins |
| `Decimal.NatToString` | ifconfig.py:44 | `str()` of a non-negative integer is a non-empty run of decimal digits with no leading zero (except "0" itself) |
| `Decimal.NatToStringRoundTrip` | ifconfig.py:44-47 | the digits written by `str()` read back as the same number |
| `Decimal.ByteWidth` | ifconfig.py:44-47 | a byte is written with one to three digits |
| `Decimal.IntToString` | devstack_api.py:137 | `str()` of any integer is non-empty |
| `Decimal.IntToStringRoundTrip` | devstack_api.py:137 | `str()` of an integer (with its minus sign) parses back to the integer |
| `Decimal.IntToStringInjective` | devstack_api.py:256 | two integer ids with the same `str()` are equal |
| `ApiRequests.Str` | devstack_api.py:137 | `str()` of a string id is the id itself, and `str()` of an integer id parses back to the integer |
| `ApiRequests.OrElse` | devstack_api.py:12-14 | `x or d` is the given text when it is non-empty, and otherwise the default |
| `ApiRequests.EffectiveHeaders` | devstack_api.py:40 | `headers or self.default_header` is the given dictionary when it is non-empty, and otherwise the shared header |
| `Text.Split` | ifconfig.py:33 | `split` gives at least one piece, and the first piece is no longer than the text |
| `Text.SplitFirst` | ifconfig.py:33 | the first piece of `split(sep)` is a prefix of the text, followed by the separator or by the end |
| `Text.SplitPiecesFree` | devstack_api.py:216 | no piece of `split(sep)` contains the separator |
| `Text.SplitJoin` | devstack_api.py:216 | `sep.join(s.split(sep)) == s`: the pieces are all the text except the separators |
| `Text.Join` | devstack_api.py:216 | the reference definition of `sep.join(parts)` (the parts with `sep` between neighbours) through which `SplitJoin` and `ReplaceIsJoinSplit` specify the `replace` on this line, which itself never calls `join`; its own contract says only that the result begins with the first part |
| `Text.Replace` | devstack_api.py:216 | replacing a pattern by itself gives the text back |
| `Text.ReplaceIsJoinSplit` | devstack_api.py:216 | `s.replace(p, r) == r.join(s.split(p))`: each occurrence becomes `r` and the text between occurrences is kept |
| `Text.ReplaceOfFree` | devstack_api.py:216 | a path without "tenantid" is left unchanged |
| `ApiRequests.UnscopedAuthBody` | devstack_api.py:114-121 | username and password are both `user` when `user` is non-empty, so `user` is also sent as the password; otherwise they are the stored credentials |
| `ApiRequests.FirstNamed` | devstack_api.py:134-138 | returns the first index in list order whose name matches, or `None` when no entry has that name |
| `ApiRequests.PathOf` | devstack_api.py:174 | every storage-service path starts with its API version, "/v1/" or "/v2/", and is longer than that prefix and the tenant id together; where the tenant id sits is recovered by `ApiRequests.PathRoundTrip` |
| `ApiRequests.PathTemplates` | devstack_api.py:169-243 | the seven fixed paths: `/v1/<tid>/volumes`, `?status=in-use`, `/detail`, `/v2/<tid>/volumes[/detail]`, `/v2/<tid>/snapshots`, `/v1/<tid>/volumes/<id>` |
| `ApiRequests.PathRoundTrip` | devstack_api.py:169-243 | each path parses back to its tenant id and endpoint (tenant id without '/', volume id not "detail") |
| `ApiRequests.DetailIdCollision` | devstack_api.py:197-243 | deleting the volume with id "detail" uses the path of the detailed listing |
| `ApiRequests.PaddedSizes` | devstack_api.py:275-276 | the padded list has length max(old length, `vol_number`), keeps the old prefix, and every appended element is 1 |
| `ApiRequests.CreatedSizes` | devstack_api.py:275-278 | the sizes created are `max(vol_number, 0)` values, value k being `sizes[k]` where it exists and 1 after |
| `ApiRequests.CreateManyExamples` | devstack_api.py:268-273 | (4, [1,2,3,4]) creates 1,2,3,4; (4, [3,2]) creates 3,2,1,1 and pads the list to [3,2,1,1] |
| `DevstackApi.SizeList.Extend` | devstack_api.py:276 | `list.extend` appends in place |
| `DevstackApi.Api.constructor` | devstack_api.py:9-21 | url is `osurl or wlan0_ip`, user and password default to "demo" and "nova" when absent or empty, hosts are url + ":5000", ":35357", ":8776", header is JSON only |
| `DevstackApi.Api.SendRequest` | devstack_api.py:27-89 | one request is logged, with the given headers or, when none or empty, the shared header |
| `DevstackApi.Api.GetTenantIdForUser` | devstack_api.py:108-138 | logs the unscoped token POST and the tenant GET (with the unscoped token), then returns `str(id)` of the first tenant named `user or osuser`, or fails when none matches |
| `DevstackApi.Api.GetToken` | devstack_api.py:140-165 | logs a POST of the stored credentials plus `tenantId` with a fresh JSON header, and returns `str()` of the token id |
| `DevstackApi.Api.StoreToken` | devstack_api.py:170-171 | the shared header gets `X-Auth-Token` = token in place, and `Content-Type` is kept |
| `DevstackApi.Api.KeystoneGet` | devstack_api.py:91-96 | stores the token in the shared header and logs a GET to url + ":35357" |
| `DevstackApi.Api.CinderGetPath` | devstack_api.py:180-186 | the shape shared by the `cinder_*` GETs: store the token in the shared header, then log one GET to the storage host with that header |
| `DevstackApi.Api.GetAdminId` | devstack_api.py:98-106 | logs the user listing; sets `admin_id` to the id of the first user named "admin", and leaves it unchanged when there is none |
| `DevstackApi.Api.CinderCreate` | devstack_api.py:169-177 | POST `{"volume": {"size": size}}` to `/v1/<tid>/volumes` with the token header |
| `DevstackApi.Api.CinderList` | devstack_api.py:180-186 | GET `/v1/<tid>/volumes` with the token header |
| `DevstackApi.Api.CinderListFilter` | devstack_api.py:189-195 | GET `/v1/<tid>/volumes?status=in-use` |
| `DevstackApi.Api.CinderListDetail` | devstack_api.py:197-203 | GET `/v1/<tid>/volumes/detail` |
| `DevstackApi.Api.CinderListV2` | devstack_api.py:205-211 | GET `/v2/<tid>/volumes` |
| `DevstackApi.Api.CinderGet` | devstack_api.py:213-219 | GET the caller's path with every "tenantid" replaced by the tenant id |
| `DevstackApi.Api.CinderListDetailV2` | devstack_api.py:221-227 | GET `/v2/<tid>/volumes/detail` |
| `DevstackApi.Api.CinderSnapshotList` | devstack_api.py:229-235 | GET `/v2/<tid>/snapshots` |
| `DevstackApi.Api.CinderDelete` | devstack_api.py:237-244 | DELETE `/v1/<tid>/volumes/<id>` with the shared (token) header |
| `DevstackApi.Api.CinderDeleteAll` | devstack_api.py:246-260 | one listing GET, then exactly one DELETE per listed volume, in listing order, on `/v1/<tid>/volumes/<str(id)>` |
| `DevstackApi.Api.CinderCreateMany` | devstack_api.py:262-278 | the caller's list is padded in place to `PaddedSizes`, and `max(vol_number, 0)` creates are sent, create k with the padded list's `sizes[k]`, in index order |
| `DevstackApi.NewApi` | devstack_api.py:9-25 | `__init__` succeeds iff a tenant has the user's name; the client then holds that first tenant's `str(id)` and the scoped token, and has sent exactly the unscoped POST, the tenant GET and the scoped POST |
| `DevstackApi.CreateManyWithDefaultTwice` | devstack_api.py:262 | the default `[1]` is one shared list: after two calls that use it, it holds max(1, a, b) ones |

## Left out

- The `SIOCGIFCONF` ioctl, the socket, `fcntl` and `struct.pack`/`unpack` (ifconfig.py:23-30) are operating-system calls. The filled buffer and the reported byte count are inputs.
- The `'wlan0'` lookup in `__init__` (devstack_api.py:11) depends on the host. Its result is the `wlan0Ip` parameter, and the `KeyError` raised when the interface is missing is not modelled.
- `httplib` connections, reading responses, and `json.dumps`/`json.loads` are network I/O and library serialisation. Requests go into the log, and the parsed answers the client inspects are parameters. Unparsable or error responses are not modelled.
- The GET and POST methods return the server's parsed answer unchanged. Those return values carry no client logic and are not modelled.
- `print` output, including `cinder_get`'s `len(data['volumes'])` and its possible `KeyError`, is left out. So are the `debug` levels and the `__main__` blocks, which are console output or entry points.
- Token contents and expiry are opaque server strings with no client logic.
- `DevstackApi.NewApi`: when `__init__` raises, the two requests already sent are lost with the object, so only `None` is returned.
- `DevstackApi.Api.CinderDelete`: takes the volume id as text. The `%s` formatting of a non-string id is modelled only where `cinder_delete_all` applies `str()` first.
- The `cinder_*`, `keystone_get` and `get_admin_id` methods require the state `__init__` leaves behind (tenant and token set). A client object cannot be obtained in any other state, so the source's behaviour on a half-built object is not modelled.
- Python 2 byte strings and unicode strings are not told apart. Names are byte sequences and all other text is `string`. Ids are JSON strings or integers (`ApiRequests.Scalar`). So `str()` of a unicode id holding non-ASCII text, which raises `UnicodeEncodeError` in Python 2, is not modelled. Nor are float, boolean or null ids, whose `str()` gives text such as "1.5", "True" or "None".
