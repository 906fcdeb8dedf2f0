/** The two generation endpoints (api/main.py:110-185): encode the URL as a
    QR image, store it under a fresh key, answer with where it lives. The
    QR encoder, the object store and the URL validator are parameters: each
    either yields its value or raises an error whose text is carried along. */
module Handlers {
  import opened Wrappers
  import opened Timestamps
  import opened Naming

  type Bytes = seq<bv8>

  const PngContentType := "image/png"
  const S3Host := ".s3.amazonaws.com/"
  const UploadFailedPrefix := "Failed to upload to S3: "
  const GenerateFailedPrefix := "Error generating QR code: "
  const InvalidUrlPrefix := "Invalid URL provided: "

  /** One call of `s3.put_object`. */
  datatype PutObject = PutObject(bucket: string, key: string, body: Bytes, contentType: string)

  /** What `s3.put_object` did: stored the object, raised botocore's
      `ClientError`, or raised some other exception. */
  datatype StoreOutcome = Stored | ClientError(message: string) | OtherError(message: string)

  /** The success dict. */
  datatype UploadRecord = UploadRecord(
    success: bool, qrCodeUrl: string, originalUrl: string, fileName: string)

  /** A handler's answer: the success dict, or an `HTTPException`. */
  datatype Response = Success(record: UploadRecord) | HttpError(status: nat, detail: string)

  /** A handler call: its answer and the upload it attempted, if any (the
      only side effect of the pipeline). */
  datatype Run = Run(response: Response, upload: Option<PutObject>)

  /** `s3_url`: virtual-hosted-style address of `key` in `bucket`. */
  function S3Url(bucket: string, key: string): string
  {
    "https://" + bucket + S3Host + key
  }

  /** Reads the key back out of an address in `bucket`. */
  function S3UrlKey(bucket: string, url: string): (r: Option<string>)
  {
    var prefix := "https://" + bucket + S3Host;
    if prefix <= url then Some(url[|prefix|..]) else None
  }

  /** The key can be read back from the address it was placed in. */
  lemma S3UrlKeyRoundTrip(bucket: string, key: string)
    ensures S3UrlKey(bucket, S3Url(bucket, key)) == Some(key)
    ensures forall url :: S3UrlKey(bucket, url) == Some(key) ==> url == S3Url(bucket, key)
  {

  }

  /** Decimal digits of a status code, as `str(int)` writes them. */
  function DecimalString(n: nat): (s: string)
    ensures |s| >= 1 && AllDigits(s)
  {
    if n < 10 then [DigitChar(n)] else DecimalString(n / 10) + [DigitChar(n % 10)]
  }

  /** `str(HTTPException(status, detail))`, which Starlette writes as
      `"<status>: <detail>"`. */
  function ExceptionText(status: nat, detail: string): string
  {
    DecimalString(status) + ": " + detail
  }

  /** `generate_qr_new`, on an already validated URL string. */
  function GenerateQrNew(
    url: string, bucket: string, now: Timestamp,
    encode: string -> Result<Bytes>, put: PutObject -> StoreOutcome): (r: Run)
    requires Valid(now)
    // an upload is attempted exactly when the image was encoded, and it
    // carries that image under the key named from the URL and the clock
    ensures r.upload.Some? <==> encode(url).Ok?
    ensures r.upload.Some? ==>
      r.upload.value == PutObject(bucket, Key(url, now), encode(url).value, PngContentType)
    // success exactly when the store accepted the object
    ensures r.response.Success? <==> r.upload.Some? && put(r.upload.value).Stored?
    ensures r.response.Success? ==>
      && r.response.record.success
      && r.response.record.originalUrl == url
      && r.response.record.fileName == Key(url, now)
      && r.response.record.qrCodeUrl == "https://" + bucket + ".s3.amazonaws.com/" + r.response.record.fileName
    // every failure is a 500, with the prefix chosen by where it happened
    ensures r.response.HttpError? ==> r.response.status == 500
    ensures encode(url).Err? ==> r.response.detail == GenerateFailedPrefix + encode(url).error
    ensures r.upload.Some? && put(r.upload.value).ClientError? ==>
      r.response.detail == UploadFailedPrefix + put(r.upload.value).message
    ensures r.upload.Some? && put(r.upload.value).OtherError? ==>
      r.response.detail == GenerateFailedPrefix + put(r.upload.value).message
  {
    match encode(url)
    case Err(e) => Run(HttpError(500, GenerateFailedPrefix + e), None)
    case Ok(png) =>
      var key := Key(url, now);
      var request := PutObject(bucket, key, png, PngContentType);
      var response := match put(request)
        case Stored => Success(UploadRecord(true, S3Url(bucket, key), url, key))
        case ClientError(m) => HttpError(500, UploadFailedPrefix + m)
        case OtherError(m) => HttpError(500, GenerateFailedPrefix + m);
      Run(response, Some(request))
  }

  /** `POST /generate`: FastAPI validates the body against `QRRequest`
      before the handler runs and answers a failure itself, with 422;
      `validate` stands for pydantic's `HttpUrl` (its text, normalised, or
      its error). */
  function GenerateEndpoint(
    body: string, validate: string -> Result<string>, bucket: string, now: Timestamp,
    encode: string -> Result<Bytes>, put: PutObject -> StoreOutcome): (r: Run)
    requires Valid(now)
    ensures validate(body).Err? ==> r == Run(HttpError(422, validate(body).error), None)
    ensures validate(body).Ok? ==> r == GenerateQrNew(validate(body).value, bucket, now, encode, put)
  {
    match validate(body)
    case Err(e) => Run(HttpError(422, e), None)
    case Ok(url) => GenerateQrNew(url, bucket, now, encode, put)
  }

  /** `generate_qr_legacy`: validates the query parameter itself and
      delegates; its bare `except Exception` turns every failure, the
      delegate's 500s included, into a 400. */
  function GenerateQrLegacy(
    raw: string, validate: string -> Result<string>, bucket: string, now: Timestamp,
    encode: string -> Result<Bytes>, put: PutObject -> StoreOutcome): (r: Run)
    requires Valid(now)
    ensures r.response.HttpError? ==> r.response.status == 400 && InvalidUrlPrefix <= r.response.detail
    ensures validate(raw).Err? ==> r == Run(HttpError(400, InvalidUrlPrefix + validate(raw).error), None)
    ensures validate(raw).Ok? ==>
      var inner := GenerateQrNew(validate(raw).value, bucket, now, encode, put);
      && r.upload == inner.upload
      && (r.response.Success? <==> inner.response.Success?)
      && (inner.response.Success? ==> r.response == inner.response)
      && (inner.response.HttpError? ==>
            r.response.detail == InvalidUrlPrefix + ExceptionText(inner.response.status, inner.response.detail))
  {
    match validate(raw)
    case Err(e) => Run(HttpError(400, InvalidUrlPrefix + e), None)
    case Ok(url) =>
      var inner := GenerateQrNew(url, bucket, now, encode, put);
      match inner.response
      case Success(_) => inner
      case HttpError(status, detail) =>
        Run(HttpError(400, InvalidUrlPrefix + ExceptionText(status, detail)), inner.upload)
  }

  /** A storage failure reaches a legacy caller as a 400 whose detail nests
      the delegate's 500 text. */
  lemma LegacyMasksUploadFailure(
    raw: string, validate: string -> Result<string>, bucket: string, now: Timestamp,
    encode: string -> Result<Bytes>, put: PutObject -> StoreOutcome)
    requires Valid(now) && validate(raw).Ok?
    requires encode(validate(raw).value).Ok?
    requires put(PutObject(bucket, Key(validate(raw).value, now), encode(validate(raw).value).value, PngContentType)).ClientError?
    ensures var m := put(PutObject(bucket, Key(validate(raw).value, now), encode(validate(raw).value).value, PngContentType)).message;
      GenerateQrLegacy(raw, validate, bucket, now, encode, put).response
        == HttpError(400, InvalidUrlPrefix + "500: " + UploadFailedPrefix + m)
  {

  }

  /** For input that validates, both endpoints succeed together and then
      give the same answer and store the same object. */
  lemma LegacyAgreesOnSuccess(
    raw: string, validate: string -> Result<string>, bucket: string, now: Timestamp,
    encode: string -> Result<Bytes>, put: PutObject -> StoreOutcome)
    requires Valid(now) && validate(raw).Ok?
    ensures var legacy := GenerateQrLegacy(raw, validate, bucket, now, encode, put);
      var current := GenerateEndpoint(raw, validate, bucket, now, encode, put);
      && legacy.upload == current.upload
      && (legacy.response.Success? <==> current.response.Success?)
      && (current.response.Success? ==> legacy.response == current.response)
  {
  }

  /** The public address ends with the stored key, which names the
      `qr_codes/` folder and a `.png` object. */
  lemma SuccessRecordShape(
    url: string, bucket: string, now: Timestamp,
    encode: string -> Result<Bytes>, put: PutObject -> StoreOutcome)
    requires Valid(now)
    requires GenerateQrNew(url, bucket, now, encode, put).response.Success?
    ensures var rec := GenerateQrNew(url, bucket, now, encode, put).response.record;
      && S3UrlKey(bucket, rec.qrCodeUrl) == Some(rec.fileName)
      && KeyPrefix <= rec.fileName
      && ParseKey(rec.fileName) == Some((Fragment(url), now))
  {
    var rec := GenerateQrNew(url, bucket, now, encode, put).response.record;
    S3UrlKeyRoundTrip(bucket, rec.fileName);
    ParseKeyOfKey(url, now);
  }

  /** `{"url": "https://example.com"}`, which pydantic turns into
      `https://example.com/`, is stored as `qr_codes/example_com__<time>.png`. */
  lemma ExampleRequest(
    url: string, bucket: string, now: Timestamp,
    encode: string -> Result<Bytes>, put: PutObject -> StoreOutcome)
    requires url == "https://example.com/" && Valid(now)
    requires GenerateQrNew(url, bucket, now, encode, put).response.Success?
    ensures GenerateQrNew(url, bucket, now, encode, put).response.record.fileName
      == "qr_codes/example_com__" + Render(now) + ".png"
  {
    ExampleKey(now);
  }
}
