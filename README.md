# ace-skyspark-cli, point reconciliation and validators in Dafny

ace-skyspark-cli copies building-automation points from ACE FlightDeck into
a SkySpark server. This project models the logic under its network and CLI
code, and proves properties of that model:

- **Point reconciliation** (`sync.dfy`, from `src/ace_skyspark_cli/sync.py`).
  A SkySpark point is found again through the `haystackRef` key-value tag
  that FlightDeck stores. `_build_ref_map` indexes SkySpark's points by that
  tag. The classification loop of `sync_points_for_site` then prepares each
  FlightDeck point as an update of the point it names, or as a create. A
  point that raises becomes an error message. The creates and updates are
  then sent in fixed-size batches. `SyncResult` is a class whose counters
  and error list are updated in place.
- **Reference codec and tag helpers** (`testutils.dfy`, from
  `tests/test_utils.py`):
  - reading and writing SkySpark references `p:<project>:r:<id>`;
  - reading the `{"_kind": ...}` wrappers of typed tag values;
  - splitting FlightDeck tags into markers and key-values;
  - finding entities by refName.
- **Configuration validators** (`config.dfy` and `jobconfig.dfy`, from
  `src/ace_skyspark_cli/config.py` and `src/ace_skyspark_cli/job_config.py`):
  - trimming and blank rejection;
  - URL normalisation to an `/api` suffix;
  - the log-level check;
  - secret masking in `Config.to_dict`;
  - the positivity validators;
  - the job-file templates;
  - the suffix dispatch of `JobFile.from_file`.

Supporting modules:

- `wrappers.dfy` holds `Option` and `Result`.
- `pyvalue.dfy` models Python's JSON-shaped values: truthiness, `dict.get`,
  the name of a value's type, its conversion to text, and the exceptions the code can raise. An
  exception carries its message text.
- `strings.dfy` models the `str` methods the code calls: `strip`, `lstrip`,
  `rstrip`, `split`, `upper`, `replace` and `startswith`/`endswith`.

Each validator returns `Ok(value)` or `Err(ValueError(message))`, with the
message the source uses. The SkySpark client is a `Sink` value:

- the points `read_points` returned;
- the validation the library's `Point` model applies when the code builds a
  point (for instance, that a function marker is present), as a function
  that accepts the arguments or names the exception raised;
- one function for `create_points`;
- one function for `update_points`.

The last two return the written points or the exception raised.

A fuller design could make the update path strip `@` from the SkySpark
refName, as it does for the id, siteRef and equipRef. The code copies
refName as it is, and the model follows the code.

## Model

| member | source | states |
|---|---|---|
| Sync.SyncResult.constructor | src/ace_skyspark_cli/sync.py:22-33 | A new result has all nine counters at 0 and no errors. |
| Sync.SyncResult.AddError | src/ace_skyspark_cli/sync.py:35-41 | Appends exactly one message at the end. Only the field `errors` may change, so the earlier errors and all counters are kept. |
| Sync.SyncResult.ToDict | src/ace_skyspark_cli/sync.py:44-67 | Exactly the keys sites, equipment, points and errors. Each entity holds its own created/updated/skipped counters, and the errors come out in order. |
| Sync.ToDictLossless | src/ace_skyspark_cli/sync.py:44-67 | The report loses nothing: two results give the same dict exactly when all nine counters and the error lists are equal. |
| Sync.GetHaystackRef | src/ace_skyspark_cli/sync.py:242-244 | The point's haystackRef tag when its key-value tags hold one. Otherwise None, including when the tags are None or empty. |
| Sync.OutgoingKv | src/ace_skyspark_cli/sync.py:273 | The source key-values minus haystackRef, with every other value unchanged. |
| Sync.PreparePointCreate | src/ace_skyspark_cli/sync.py:258-274 | A create has no id, its dis is the point name, its markers are "point" followed by one entry per source marker, and haystackRef is not among its key-values. |
| Sync.PrepareCreateSpec | src/ace_skyspark_cli/sync.py:258-274 | A create has no id, and its dis is the point name. Its markers are "point" followed by the source markers, and its key-values are the source's without haystackRef. Its refName is `ace-point-<id>` when the point has an id. Otherwise it is `ace-` plus the name with each space replaced by `_` and every other character kept. siteRef, equipRef and kind take the placeholder values. |
| Sync.RefFieldCases | src/ace_skyspark_cli/sync.py:291-296 | A missing reference field reads as "". A field that is not a dict raises AttributeError on `get`, and a `val` that is not a string raises on `lstrip`. A string `val` loses its leading `@`s. |
| Sync.PreparePointUpdate | src/ace_skyspark_cli/sync.py:291-312 | A prepared update has an id, its dis is the point name, its markers are "point" followed by one entry per source marker, and haystackRef is not among its key-values. |
| Sync.PrepareUpdateCases | src/ace_skyspark_cli/sync.py:291-312 | An update succeeds exactly when the id, siteRef and equipRef reads all succeed. Otherwise it fails with the first of their errors, in that order. On success it holds the stripped references, the refName as read (default "") and the kind as read (default "Number"). Its dis, markers and key-values equal the create's. |
| Sync.BuildRefMap | src/ace_skyspark_cli/sync.py:222-231 | The loop builds exactly the map `RefMapOf` defines over the points in order. |
| Sync.RefMapEntry | src/ace_skyspark_cli/sync.py:222-231 | A key is present exactly when some point's truthy haystackRef renders to it, so empty input gives an empty map. The key maps to the last such point. |
| Sync.RefMapStringKey | src/ace_skyspark_cli/sync.py:226-228 | A point whose haystackRef is a non-empty string is found under that string. |
| Sync.Construct | src/ace_skyspark_cli/sync.py:266-274 | Building a point fails with the error message of the exception the library's validation raises. When the validation accepts, the arguments become the update or the create unchanged. |
| Sync.Decide | src/ace_skyspark_cli/sync.py:136-154 | A point is only ever updated when its haystackRef resolves in the ref map, and no create or update carries haystackRef among its key-values. |
| Sync.DecideCases | src/ace_skyspark_cli/sync.py:136-154 | A point is updated exactly when its ref is a non-empty string key of the map, the update can be prepared and the library accepts it. It is created exactly when its ref is falsy, or hashable and not found, and the library accepts the create. Otherwise it fails with the message of the exception raised: the TypeError of an unhashable ref, the error of a malformed SkySpark point, or the library's rejection. |
| Sync.ResolvedIsUpdated | src/ace_skyspark_cli/sync.py:140-145 | A resolving point with a well-formed SkySpark point, whose update the library accepts, is prepared as that update. |
| Sync.UnreferencedIsCreated | src/ace_skyspark_cli/sync.py:146-149 | A point without a truthy haystackRef, whose create the library accepts, is prepared as that create. |
| Sync.ClassifyPoints | src/ace_skyspark_cli/sync.py:132-154 | The loop returns the create list and update list that `Classification` defines under the library's validation, in input order. It appends the per-point error messages, and adds one to points_skipped per update. |
| Sync.ClassificationPartition | src/ace_skyspark_cli/sync.py:135-154 | Every point lands in exactly one of: the creates, the updates, the errors. |
| Sync.AllResolvedAllUpdated | src/ace_skyspark_cli/sync.py:135-154 | When every point resolves to a well-formed SkySpark point and the library accepts every update, nothing is created or failed and every point is updated. |
| Sync.NoRefsAllCreated | src/ace_skyspark_cli/sync.py:146-149 | Points without refs whose creates the library accepts are all created, in order, each as `_prepare_point_create` builds it. |
| Sync.NoRefsAllRefused | src/ace_skyspark_cli/sync.py:146-154 | Points without refs whose creates the library refuses are neither created nor updated. Each gives one error message, in input order, naming the point and the library's exception. |
| Sync.NoHaystackRefSent | src/ace_skyspark_cli/sync.py:258-312 | No point in either list carries haystackRef among its key-values. |
| Sync.ChunksFlatten | src/ace_skyspark_cli/sync.py:326-327 | The chunks joined in order are the input. |
| Sync.ChunksSizes | src/ace_skyspark_cli/sync.py:326-327 | Every chunk holds between 1 and b items, and all but the last hold exactly b. |
| Sync.ChunksCount | src/ace_skyspark_cli/sync.py:326-327 | The chunk count is ceil(n / b). |
| Sync.SendInBatches | src/ace_skyspark_cli/sync.py:323-338 | The batch loop returns what `SendBatchesSpec` defines. Batch size 0 raises the ValueError of `range`, and a negative size sends nothing. Otherwise the replies are joined in order, and the first failure is re-raised. The sink receives exactly the chunks up to the first failure. |
| Sync.RunBatchesAllSent | src/ace_skyspark_cli/sync.py:326-338 | When no batch fails, every chunk is sent once and in order, and the result is the per-chunk replies joined in order. |
| Sync.RunBatchesStopsAtFailure | src/ace_skyspark_cli/sync.py:330-336 | A failing batch is the last one sent, and its exception is the result. |
| Sync.NoPointsNoCalls | src/ace_skyspark_cli/sync.py:326-338 | An empty list makes no sink call and returns []. |
| Sync.WritePhaseBounds | src/ace_skyspark_cli/sync.py:157-166 | The write phase adds at most one error, and with nothing to write it does nothing. |
| Sync.NegativeBatchSizeWritesNothing | src/ace_skyspark_cli/sync.py:323-326 | A negative batch size writes nothing and reports no error. |
| Sync.ZeroBatchSizeFails | src/ace_skyspark_cli/sync.py:157-176 | A zero batch size ends a non-empty write with one "Sync failed" error and nothing counted. |
| Sync.WritePoints | src/ace_skyspark_cli/sync.py:157-166 | The sink receives the create batches up to the first that fails, then the update batches only if no create batch failed; an empty list sends nothing. The created and updated counts grow by what the sink returned. A failure adds one "Sync failed" error and stops the phase. All other counters are kept. |
| Sync.WriteCallsAllSent | src/ace_skyspark_cli/sync.py:157-166 | When no batch fails, the sink receives the create chunks and then the update chunks, so every prepared point is sent exactly once, creates first. |
| Sync.SyncPointsForSite | src/ace_skyspark_cli/sync.py:112-179 | No points gives a zero result. Otherwise the site and equipment counters stay 0, points_skipped is the number of updates, and the errors are the per-point errors followed by the write-phase error. A real run passes the sink exactly the create and update batches the write phase sends. A dry run writes nothing: no sink call, and created/updated stay 0. |
| TestUtils.ExtractRefId | tests/test_utils.py:6-26 | A value that is neither a string nor a dict gives "", and so does a dict without a string `val`. A dict with a string `val` decodes as that string does, and a string decodes by the reference rule. |
| TestUtils.DecodeRef | tests/test_utils.py:18-26 | A string without `:` comes back unchanged, so "" gives "". |
| TestUtils.ExtractRefIdOfWrapper | tests/test_utils.py:16-26 | A wrapper dict whose `val` is a string gives the same id as that string. |
| TestUtils.BuildRefString | tests/test_utils.py:29-40 | With colon-free fields, the result splits on `:` into exactly p, project, r, id. |
| TestUtils.RefRoundTrip | tests/test_utils.py:16-40 | Decoding an encoded reference gives back the id. This holds for a plain string and for a `ref` wrapper. |
| TestUtils.ExtractRefIdCases | tests/test_utils.py:22-26 | Any string decodes to itself, or it is `p:<project>:r:<id>` with colon-free fields and decodes to `<id>`. |
| TestUtils.CreateHaystackRefTag | tests/test_utils.py:116-126 | The tag stored in FlightDeck is the SkySpark id, unchanged. |
| TestUtils.HaystackRefTagRoundTrip | tests/test_utils.py:116-126 | A stored haystackRef tag is the full reference, and it decodes to its id. |
| TestUtils.ClassifyEncode | tests/test_utils.py:73-85 | Writing a typed value in SkySpark's wrapper form and classifying it gives the value back. |
| TestUtils.HasMarkerTag | tests/test_utils.py:54-59 | True exactly when the tag is present and its value is a marker wrapper. |
| TestUtils.GetKvTag | tests/test_utils.py:73-85 | A missing tag gives None. A number, str, bool, date, time, datetime or ref wrapper gives its `val`. Any other value is returned as it is. |
| TestUtils.GetKvTagOfEncoded | tests/test_utils.py:54-85 | A wrapped value is read back as its payload. A value is a marker tag exactly when it is the marker wrapper. |
| TestUtils.NormalizeTagsFromFlightdeck | tests/test_utils.py:98-113 | The loop builds the marker list and the key-value dict that `MarkerKeys` and `KvEntries` define. |
| TestUtils.NormalizeDropsHaystackRef | tests/test_utils.py:101-104 | haystackRef reaches neither output. |
| TestUtils.NormalizeFromInput | tests/test_utils.py:101-113 | Only input keys are output. Markers come from None or "" values, and key-values keep their values. |
| TestUtils.NormalizePartition | tests/test_utils.py:106-111 | Every key but haystackRef goes to exactly one side. It is a marker exactly when its value is None or "", and otherwise a key-value with its value kept. |
| TestUtils.MarkerKeysDistinct | tests/test_utils.py:101-108 | The marker list has no duplicates. |
| TestUtils.MarkerKeysAppend | tests/test_utils.py:101-108 | Markers keep input order: normalising a concatenation concatenates the marker lists. |
| TestUtils.IsDuplicate | tests/test_utils.py:176 | True exactly when the entity's refName is the given string. It is never true without a refName. |
| TestUtils.FindByRefName | tests/test_utils.py:159-162 | None exactly when no entity matches. Otherwise the first matching entity. |
| Config.ValidateJwt | src/ace_skyspark_cli/config.py:34-39 | A blank or whitespace-only token is refused with the JWT message. Otherwise the result is the token trimmed: non-empty, with no surrounding whitespace, and padded only by whitespace in the input. |
| Config.ValidateNotEmpty | src/ace_skyspark_cli/config.py:79-84 | There are the same rules for project and user, with the message "Field cannot be empty". |
| Config.ValidateUrl | src/ace_skyspark_cli/config.py:62-75 | A blank URL is refused, and so is a trimmed URL without an http:// or https:// scheme. Otherwise the trimmed URL loses its trailing slashes and gains `/api` unless it already ends in `/api`, so the result always ends in `/api`. |
| Config.ValidateUrlIdempotent | src/ace_skyspark_cli/config.py:67-75 | A normalised URL that keeps its scheme validates to itself: `/api` is never doubled. |
| Config.BareSchemeUrl | src/ace_skyspark_cli/config.py:68-75 | `http://` and `https://` are accepted and normalised to `http:/api` and `https:/api`. Validating that result again fails with the scheme message. |
| Config.ColonSlashesStripped | src/ace_skyspark_cli/config.py:72-75 | A URL ending in `://` loses both of the scheme's slashes before `/api` is appended. |
| Config.ValidateLogLevel | src/ace_skyspark_cli/config.py:105-112 | The input is accepted exactly when its upper case is one of the five levels, and the result is that upper case. |
| Config.ValidateLogLevelCaseInsensitive | src/ace_skyspark_cli/config.py:107-112 | A value and its upper case validate alike, and an accepted level validates to itself. |
| Config.LowerCaseLevelAccepted | src/ace_skyspark_cli/config.py:107-112 | "info" is accepted as "INFO". |
| Config.ToDict | src/ace_skyspark_cli/config.py:144-154 | jwt and password are always "***MASKED***". Every other dumped field is reported as dumped, and app is reported unchanged. |
| Config.ToDictHidesSecrets | src/ace_skyspark_cli/config.py:144-154 | The report is the same whatever the JWT and password are. |
| JobConfig.ValidateSyncLimit | src/ace_skyspark_cli/job_config.py:34-41 | None and positive limits pass unchanged. Zero and negatives are refused. |
| JobConfig.ValidateBatchSize | src/ace_skyspark_cli/job_config.py:43-50 | The same rule for batch_size, with its own message. |
| JobConfig.ValidateHistoryLimit | src/ace_skyspark_cli/job_config.py:72-79 | The same rule for the write-history limit. |
| JobConfig.ValidateChunkSize | src/ace_skyspark_cli/job_config.py:69-88 | Positive sizes pass unchanged and the rest are refused. The default of 1000 passes. |
| JobConfig.SyncTemplate | src/ace_skyspark_cli/job_config.py:167-181 | One key `sync`, holding site, dry_run, limit, sync_all and batch_size. dry_run is false, and limit and batch_size are unset. |
| JobConfig.SyncRefsTemplate | src/ace_skyspark_cli/job_config.py:184-190 | One key `sync_refs` with site and dry_run. site is unset and dry_run is false. |
| JobConfig.WriteHistoryTemplate | src/ace_skyspark_cli/job_config.py:193-208 | One key `write_history` holding site, start, end, limit, chunk_size and dry_run. chunk_size is the default of 1000, limit is unset and dry_run is false. |
| JobConfig.CheckTimezonesTemplate | src/ace_skyspark_cli/job_config.py:211-217 | One key `check_timezones` holding site, fix and dry_run. site is unset and fix is false. |
| JobConfig.GenerateFullTemplate | src/ace_skyspark_cli/job_config.py:220-231 | Exactly the four job keys. Each section equals its single template, because their key sets are disjoint. |
| JobConfig.TemplatesValidate | src/ace_skyspark_cli/job_config.py:167-217 | The limit, batch_size and chunk_size the templates propose pass their validators. |
| JobConfig.JobFileFormat | src/ace_skyspark_cli/job_config.py:127-141 | A missing file is reported first. After that, .yaml and .yml mean YAML, .json means JSON, and any other suffix is refused with the format message. |
| JobConfig.FormatBySuffixAlone | src/ace_skyspark_cli/job_config.py:133-141 | For an existing file the format depends on the suffix alone. |

## Left out

- Network, file and process I/O are left out. The point lists and the suffix are parameters:
  - `_fetch_ace_points` is a placeholder that returns [], so the FlightDeck points are a parameter.
  - `_fetch_skyspark_points` turns a read failure into [], so its result is `Sink.points`.
  - Whether a job file exists is a parameter too.
- Logging (structlog) and the `sync_start`/`dry_run_summary` events are left out. They change no state.
- `_store_refs_to_ace` only logs the ids it reads, so it is not modelled. It appears as a comment where it is called.
- The SkySpark client is left out. `create_points` and `update_points` are pure functions from a batch to a reply. Async behaviour, retries, connection state, and a sink whose answer depends on earlier calls are not modelled.
- `SendInBatches` steps its index by the batch size, as Python does, but clamps the last step to the list's length. This ends the loop in the same way; the index value after the loop is not modelled.
- `extract_haystack_ref` in tests/test_utils.py is not modelled. It reads attributes of an arbitrary object by `hasattr`/`isinstance`.
- The following are not modelled: `JobFile.to_file`, YAML/JSON parsing, pydantic `model_validate`/`model_dump`, and environment/.env loading in `Config.__init__`/`from_env`.
- Floats are not modelled. JSON numbers are integers.
- `str()` of a list or dict comes from the `show` parameter, because Python's repr order belongs to the container. It is used for keys of the ref map.
- `Path.suffix` is not computed. `JobConfig.JobFileFormat` takes the suffix as an input.
- Strings.Upper: upper-casing is exact only for characters whose upper case is a single ASCII letter (`a`-`z`, `ı`, `ſ`). Other characters are kept, so their acceptance is exact but the echoed text in a rejection message may differ.
- Config.ValidateLogLevel: the error message stops after the echoed level. Python's text goes on with the repr of a set, whose order varies between runs.
- Sync.PrepareCreateSpec: the refName of a point with an id is `ace-point-` plus the id as text. How Python renders a non-string id is not modelled.
- The validation rules of the SkySpark library's `Point` model (the function marker it asks for, its field types) belong to that library and are not modelled concretely. They enter as the `checkPoint` function of `Sink`, and every classification result is stated in terms of what that function accepts.
- Sync.AllResolvedAllUpdated is the one idempotence scenario proved: a second run over fully linked points updates everything. Runs against a changing SkySpark inventory are not modelled.
