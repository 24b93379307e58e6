/**
 * src/ace_skyspark_cli/job_config.py: the positivity validators of the job
 * configurations, the job-file templates, and how `JobFile.from_file` picks a
 * parser from the file's suffix.
 */
module JobConfig {
  import opened Wrappers
  import opened PyValue

  /** The shared rule of the optional positivity validators: a present value of zero or less raises ValueError with `msg`; otherwise the value is returned unchanged. */
  function NoneOrPositive(v: Option<int>, msg: string): Result<Option<int>, Exception> {
    if v.Some? && v.value <= 0 then Err(ValueError(msg)) else Ok(v)
  }

  /** `SyncJobConfig.validate_limit`: None or a positive limit passes unchanged; zero and negatives are refused. */
  function ValidateSyncLimit(v: Option<int>): (r: Result<Option<int>, Exception>)
    ensures r.Ok? <==> v.None? || v.value > 0
    ensures r.Ok? ==> r.value == v
    ensures r.Err? ==> r.error == ValueError("limit must be positive")
  {
    NoneOrPositive(v, "limit must be positive")
  }

  /** `SyncJobConfig.validate_batch_size`: None or a positive batch size passes unchanged. */
  function ValidateBatchSize(v: Option<int>): (r: Result<Option<int>, Exception>)
    ensures r.Ok? <==> v.None? || v.value > 0
    ensures r.Ok? ==> r.value == v
    ensures r.Err? ==> r.error == ValueError("batch_size must be positive")
  {
    NoneOrPositive(v, "batch_size must be positive")
  }

  /** `WriteHistoryJobConfig.validate_limit`: the same rule as the sync limit. */
  function ValidateHistoryLimit(v: Option<int>): (r: Result<Option<int>, Exception>)
    ensures r.Ok? <==> v.None? || v.value > 0
    ensures r.Ok? ==> r.value == v
    ensures r.Err? ==> r.error == ValueError("limit must be positive")
  {
    NoneOrPositive(v, "limit must be positive")
  }

  /** The `chunk_size` a write-history job has when none is given. */
  const DefaultChunkSize := 1000

  /** `WriteHistoryJobConfig.validate_chunk_size`: a positive size passes unchanged; the default passes. */
  function ValidateChunkSize(v: int): (r: Result<int, Exception>)
    ensures r.Ok? <==> v > 0
    ensures r.Ok? ==> r.value == v
    ensures r.Err? ==> r.error == ValueError("chunk_size must be positive")
    ensures v == DefaultChunkSize ==> r == Ok(DefaultChunkSize)
  {
    if v <= 0 then Err(ValueError("chunk_size must be positive")) else Ok(v)
  }

  /** `generate_sync_template`: one `sync` section with the five fields of a sync job; site is a placeholder, the optional limits are None. */
  function SyncTemplate(): (t: Dict)
    ensures t.Keys == {"sync"} && t["sync"].JObj?
    ensures t["sync"].fields.Keys == {"site", "dry_run", "limit", "sync_all", "batch_size"}
    ensures t["sync"].fields["limit"] == JNull && t["sync"].fields["batch_size"] == JNull
    ensures t["sync"].fields["dry_run"] == JBool(false)
  {
    map["sync" := JObj(map[
      "site" := JStr("my-site-name"),
      "dry_run" := JBool(false),
      "limit" := JNull,
      "sync_all" := JBool(false),
      "batch_size" := JNull])]
  }

  /** `generate_sync_refs_template`: one `sync_refs` section with no site filter, not a dry run. */
  function SyncRefsTemplate(): (t: Dict)
    ensures t.Keys == {"sync_refs"} && t["sync_refs"].JObj?
    ensures t["sync_refs"].fields.Keys == {"site", "dry_run"}
    ensures t["sync_refs"].fields["site"] == JNull && t["sync_refs"].fields["dry_run"] == JBool(false)
  {
    map["sync_refs" := JObj(map["site" := JNull, "dry_run" := JBool(false)])]
  }

  /** `generate_write_history_template`: one `write_history` section whose chunk size is the default and whose limit is None. */
  function WriteHistoryTemplate(): (t: Dict)
    ensures t.Keys == {"write_history"} && t["write_history"].JObj?
    ensures t["write_history"].fields.Keys == {"site", "start", "end", "limit", "chunk_size", "dry_run"}
    ensures t["write_history"].fields["chunk_size"] == JNum(DefaultChunkSize)
    ensures t["write_history"].fields["limit"] == JNull && t["write_history"].fields["dry_run"] == JBool(false)
  {
    map["write_history" := JObj(map[
      "site" := JStr("my-site-name"),
      "start" := JStr("2025-11-01T00:00:00Z"),
      "end" := JStr("2025-11-01T23:59:59Z"),
      "limit" := JNull,
      "chunk_size" := JNum(DefaultChunkSize),
      "dry_run" := JBool(false)])]
  }

  /** `generate_check_timezones_template`: one `check_timezones` section that checks all sites and fixes nothing. */
  function CheckTimezonesTemplate(): (t: Dict)
    ensures t.Keys == {"check_timezones"} && t["check_timezones"].JObj?
    ensures t["check_timezones"].fields.Keys == {"site", "fix", "dry_run"}
    ensures t["check_timezones"].fields["site"] == JNull && t["check_timezones"].fields["fix"] == JBool(false)
  {
    map["check_timezones" := JObj(map["site" := JNull, "fix" := JBool(false), "dry_run" := JBool(false)])]
  }

  /**
   * `generate_full_template`: the merge of the four single templates. Their
   * keys are disjoint, so each section is exactly the one its own template holds.
   */
  function GenerateFullTemplate(): (t: Dict)
    ensures t.Keys == {"sync", "sync_refs", "write_history", "check_timezones"}
    ensures t["sync"] == SyncTemplate()["sync"]
    ensures t["sync_refs"] == SyncRefsTemplate()["sync_refs"]
    ensures t["write_history"] == WriteHistoryTemplate()["write_history"]
    ensures t["check_timezones"] == CheckTimezonesTemplate()["check_timezones"]
  {
    SyncTemplate() + SyncRefsTemplate() + WriteHistoryTemplate() + CheckTimezonesTemplate()
  }

  /** The values the templates propose pass the validators of their fields. */
  lemma TemplatesValidate()
    ensures SyncTemplate()["sync"].fields["limit"] == JNull && ValidateSyncLimit(None) == Ok(None)
    ensures SyncTemplate()["sync"].fields["batch_size"] == JNull && ValidateBatchSize(None) == Ok(None)
    ensures WriteHistoryTemplate()["write_history"].fields["limit"] == JNull && ValidateHistoryLimit(None) == Ok(None)
    ensures WriteHistoryTemplate()["write_history"].fields["chunk_size"] == JNum(DefaultChunkSize)
    ensures ValidateChunkSize(DefaultChunkSize).Ok?
  {
  }

  /** The parsers `JobFile.from_file` can use. */
  datatype Format = Yaml | JsonFormat

  /**
   * The format dispatch of `JobFile.from_file`, given whether the path exists
   * and its `Path.suffix`: a missing file is reported first; then `.yaml` and
   * `.yml` mean YAML, `.json` means JSON, and any other suffix is refused.
   */
  function JobFileFormat(pathExists: bool, filePath: string, suffix: string): (r: Result<Format, Exception>)
    ensures !pathExists ==> r == Err(FileNotFoundError("Job file not found: " + filePath))
    ensures pathExists ==> (r == Ok(Yaml) <==> suffix in {".yaml", ".yml"})
    ensures pathExists ==> (r == Ok(JsonFormat) <==> suffix == ".json")
    ensures pathExists && r.Err? ==> r.error == ValueError("Unsupported file format: " + suffix + ". Use .yaml, .yml, or .json")
  {
    if !pathExists then Err(FileNotFoundError("Job file not found: " + filePath))
    else if suffix in {".yaml", ".yml"} then Ok(Yaml)
    else if suffix == ".json" then Ok(JsonFormat)
    else Err(ValueError("Unsupported file format: " + suffix + ". Use .yaml, .yml, or .json"))
  }

  /** Once the file exists the format depends on the suffix alone, not on the rest of the path. */
  lemma FormatBySuffixAlone(path1: string, path2: string, suffix: string)
    ensures JobFileFormat(true, path1, suffix) == JobFileFormat(true, path2, suffix)
  {
  }
}
