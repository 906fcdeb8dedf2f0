/** Settings read from the process environment at start-up and the two
    informational endpoints (api/main.py:42-108). The environment is a map
    from variable names to values; a name absent from the map is unset. */
module Config {
  import opened Wrappers

  type Env = map<string, string>

  const DefaultRegion := "us-east-1"
  const DefaultBucket := "YOUR_BUCKET_NAME"

  /** `os.getenv(name)`. */
  function GetEnv(env: Env, name: string): Option<string>
  {
    if name in env then Some(env[name]) else None
  }

  /** Python truthiness of `os.getenv(name)`: set and non-empty. */
  predicate IsSetNonEmpty(env: Env, name: string)
  {
    name in env && env[name] != ""
  }

  /** Python's `a or b` on two optional strings: `a` when it is truthy, else `b`. */
  function OrElse(a: Option<string>, b: Option<string>): Option<string>
  {
    if a.Some? && a.value != "" then a else b
  }

  /** The S3 client `get_s3_client` builds: with an explicit key pair, or
      relying on the ambient role (IRSA, instance profile, config file). */
  datatype S3Client =
    | ExplicitCredentials(accessKey: string, secretKey: string, region: string)
    | AmbientCredentials(region: string)

  /** Credential selection in `get_s3_client`. */
  function SelectClient(env: Env): (c: S3Client)
    ensures c.ExplicitCredentials? <==>
      && (IsSetNonEmpty(env, "AWS_ACCESS_KEY_ID") || IsSetNonEmpty(env, "AWS_ACCESS_KEY"))
      && (IsSetNonEmpty(env, "AWS_SECRET_ACCESS_KEY") || IsSetNonEmpty(env, "AWS_SECRET_KEY"))
    ensures c.ExplicitCredentials? ==>
      && c.accessKey != "" && c.secretKey != ""
      && c.accessKey == (if IsSetNonEmpty(env, "AWS_ACCESS_KEY_ID") then env["AWS_ACCESS_KEY_ID"] else env["AWS_ACCESS_KEY"])
      && c.secretKey == (if IsSetNonEmpty(env, "AWS_SECRET_ACCESS_KEY") then env["AWS_SECRET_ACCESS_KEY"] else env["AWS_SECRET_KEY"])
    ensures "AWS_REGION" !in env ==> c.region == DefaultRegion
    ensures "AWS_REGION" in env ==> c.region == env["AWS_REGION"]
  {
    var accessKey := OrElse(GetEnv(env, "AWS_ACCESS_KEY_ID"), GetEnv(env, "AWS_ACCESS_KEY"));
    var secretKey := OrElse(GetEnv(env, "AWS_SECRET_ACCESS_KEY"), GetEnv(env, "AWS_SECRET_KEY"));
    var region := GetEnv(env, "AWS_REGION");
    var regionName := if region.Some? then region.value else DefaultRegion;
    if accessKey.Some? && accessKey.value != "" && secretKey.Some? && secretKey.value != ""
    then ExplicitCredentials(accessKey.value, secretKey.value, regionName)
    else AmbientCredentials(regionName)
  }

  /** `bucket_name`: `BUCKET_NAME`, or the placeholder when it is unset. */
  function BucketName(env: Env): (b: string)
    ensures "BUCKET_NAME" !in env ==> b == DefaultBucket
    ensures "BUCKET_NAME" in env ==> b == env["BUCKET_NAME"]
  {
    var v := GetEnv(env, "BUCKET_NAME");
    if v.Some? then v.value else DefaultBucket
  }

  /** The authentication label both informational endpoints report: it looks
      at `AWS_ACCESS_KEY_ID` alone. */
  function AuthLabel(env: Env, explicitLabel: string): string
  {
    if IsSetNonEmpty(env, "AWS_ACCESS_KEY_ID") then explicitLabel else "IRSA"
  }

  /** What `s3.head_bucket` did during a health check. */
  datatype Probe = Reachable | ProbeFailed(message: string)

  datatype HealthReport = HealthReport(
    status: string, service: string, bucket: string, s3Access: string, authMethod: string)

  /** `GET /health`. */
  function Health(env: Env, probe: Probe): (h: HealthReport)
    ensures h.status == "healthy"
    ensures h.service == "qr-code-api" && h.bucket == BucketName(env)
    ensures h.s3Access == "accessible" <==> probe.Reachable?
    ensures probe.ProbeFailed? ==> h.s3Access == "error: " + probe.message
    ensures h.authMethod == "Explicit" <==> IsSetNonEmpty(env, "AWS_ACCESS_KEY_ID")
    ensures h.authMethod == "IRSA" <==> !IsSetNonEmpty(env, "AWS_ACCESS_KEY_ID")
  {
    var access := match probe
      case Reachable => "accessible"
      case ProbeFailed(m) => assert ("error: " + m)[0] == 'e'; "error: " + m;
    HealthReport("healthy", "qr-code-api", BucketName(env), access, AuthLabel(env, "Explicit"))
  }

  datatype ServiceInfo = ServiceInfo(
    message: string, version: string, status: string, authMethod: string,
    endpoints: map<string, string>)

  /** `GET /`. */
  function Root(env: Env): (info: ServiceInfo)
    ensures info.status == "running" && info.version == "1.0"
    ensures info.authMethod == "Explicit Credentials" <==> IsSetNonEmpty(env, "AWS_ACCESS_KEY_ID")
    ensures info.authMethod == "IRSA" <==> !IsSetNonEmpty(env, "AWS_ACCESS_KEY_ID")
    ensures info.endpoints.Keys == {"health", "generate", "generate_legacy"}
  {
    ServiceInfo(
      "QR Code Generator API", "1.0", "running", AuthLabel(env, "Explicit Credentials"),
      map["health" := "/health",
          "generate" := "/generate (POST with JSON body)",
          "generate_legacy" := "/generate-qr/ (POST with query param)"])
  }

  /** The label reports on one variable while the client looks at four, so
      the two can disagree in both directions. */
  lemma AuthLabelCanDisagree(probe: Probe)
    ensures exists env: Env :: SelectClient(env).ExplicitCredentials? && Health(env, probe).authMethod == "IRSA"
    ensures exists env: Env :: SelectClient(env).AmbientCredentials? && Health(env, probe).authMethod == "Explicit"
  {
    var fallbackOnly: Env := map["AWS_ACCESS_KEY" := "key", "AWS_SECRET_KEY" := "secret"];
    assert SelectClient(fallbackOnly).ExplicitCredentials?;
    assert Health(fallbackOnly, probe).authMethod == "IRSA";
    var idOnly: Env := map["AWS_ACCESS_KEY_ID" := "key"];
    assert SelectClient(idOnly).AmbientCredentials?;
    assert Health(idOnly, probe).authMethod == "Explicit";
  }
}
