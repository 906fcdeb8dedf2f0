# QR-code generator API: a Dafny model of its request pipeline

The service (`api/main.py`) accepts a URL, renders it as a QR image,
stores the PNG in an S3 bucket under a generated key, and answers with the
object's public address. This project models the parts of that file that
are the service's own logic. Everything else is left out:

- **Object-key naming** (`Naming`, `UrlSplit`, `Timestamps`). The key is
  `qr_codes/<safe_url>_<timestamp>.png`. `safe_url` is built in three steps:
  - take the last `//`-segment of the URL, with Python's `str.split` semantics;
  - make every character outside `[\w\-_]` an `_`;
  - cut the result to 50 characters.

  The timestamp is `strftime("%Y%m%d_%H%M%S_%f")` of the clock reading,
  which is passed in.
- **The success record and public address** (`Handlers`). The record is
  `{success, qr_code_url, original_url, file_name}`. The address is
  `https://<bucket>.s3.amazonaws.com/<key>`.
- **Outcome routing** (`Handlers`). `generate_qr_new`, the `/generate`
  endpoint and the legacy `generate_qr_legacy` are functions from step
  outcomes to a response plus the upload attempted. The QR encoder, the
  S3 `put_object` call and pydantic's `HttpUrl` validator are parameters:
  each returns its value, or the text of the exception it raises.
- **Configuration and the informational endpoints** (`Config`). These are
  credential selection in `get_s3_client`, the bucket name, `GET /health`
  and `GET /`. The environment is a map from variable names to values.

`Key` is a Dafny function, so the same URL and clock reading always give
the same key.

## Behaviour as written

The code behaves as follows on points where a prose description of the
service says otherwise. The model follows the code:

- The fragment is the text after the **last** `//` found by a
  left-to-right scan, not after the first one. For example,
  `http://a/?u=http://b` keeps `b` (`UrlSplit.ExampleNestedUrl`).
- `.` is not in word characters, `-` and `_`, and pydantic 2 writes `https://example.com`
  as `https://example.com/`. A request for `https://example.com` is
  therefore stored as `qr_codes/example_com__<timestamp>.png`
  (`Handlers.ExampleRequest`). It is not stored as
  `qr_codes/example.com_<timestamp>.png`.
- An encoder failure is answered with 500 "Error generating QR code: …",
  not with a client error.
- A `/generate` body that fails validation never reaches the handler.
  FastAPI answers it itself with 422, not with 400.
- The legacy endpoint's `except Exception` also catches the delegate's
  `HTTPException`. Every failure there is a 400 "Invalid URL provided: …",
  storage failures included. Its detail nests the delegate's text as
  Starlette prints it (`"500: <detail>"`).
- The `auth_method` label of `/` and `/health` looks only at
  `AWS_ACCESS_KEY_ID`. The client choice looks at four variables, so the
  two can disagree (`Config.AuthLabelCanDisagree`).

## Model

| member | source | states |
|---|---|---|
| `UrlSplit.JoinSplit` | api/main.py:138 | joining the segments of the URL split at `//` with `//` gives the URL back |
| `UrlSplit.SplitCanonical` | api/main.py:138 | no segment holds `//` and no segment but the last ends in `/`, the left-to-right non-overlapping scan |
| `UrlSplit.SplitUnique` | api/main.py:138 | any segment list that is canonical and joins to the URL is exactly the split: the decomposition is unique |
| `UrlSplit.NoSepSplit` | api/main.py:138 | a string without `//` splits into itself alone |
| `UrlSplit.LastSegmentSpec` | api/main.py:138 | the last segment holds no `//`, ends the URL, is the whole URL when there is no `//`, and is otherwise preceded by `//` |
| `UrlSplit.ExampleSegment` | api/main.py:138 | `https://example.com/` keeps `example.com/` |
| `UrlSplit.ExampleNestedUrl` | api/main.py:138 | a URL nested in the query keeps the inner host: the last segment, not the one after the scheme |
| `Timestamps.Pad` | api/main.py:137 | each strftime field is exactly its width in decimal digits |
| `Timestamps.DecodePad` | api/main.py:137 | a zero-padded field reads back as its number when it fits the width |
| `Timestamps.PadDecode` | api/main.py:137 | every digit string is the zero-padded form of its own value |
| `Timestamps.Render` | api/main.py:137 | `%Y%m%d_%H%M%S_%f` of a valid datetime is always 22 characters |
| `Timestamps.Parse` | api/main.py:137 | reading a rendered timestamp back yields only valid datetimes |
| `Timestamps.ParseRender` | api/main.py:137 | parsing undoes rendering for every valid datetime |
| `Timestamps.RenderParse` | api/main.py:137 | every string that parses is the rendering of its parse |
| `Timestamps.RenderInjective` | api/main.py:137 | distinct datetimes render differently |
| `Naming.Sanitize` | api/main.py:138 | the substitution keeps the length, keeps safe characters in place and makes every other one `_` |
| `Naming.SanitizeIdempotent` | api/main.py:138 | sanitizing twice equals sanitizing once |
| `Naming.SanitizeKeepsSafe` | api/main.py:138 | a string of safe characters is left unchanged |
| `Naming.Fragment` | api/main.py:138 | `safe_url` has length min(50, length of the last segment) and only safe characters |
| `Naming.FragmentIsSanitizedPrefix` | api/main.py:138 | `safe_url` is the sanitized first fifty characters of the last segment |
| `Naming.Key` | api/main.py:137-139 | the key starts with `qr_codes/`, ends with `.png`, and is 36 characters longer than `safe_url` (at most 86) |
| `Naming.ParseKeyOfKey` | api/main.py:137-139 | the fragment and the clock reading can be read back from every key |
| `Naming.KeyOfParseKey` | api/main.py:139 | every string that parses as a key is the key built from its parts |
| `Naming.KeyEquality` | api/main.py:137-139 | two keys are equal iff their fragments and clock readings are: different readings give different keys for any two URLs |
| `Naming.ExampleFragment` | api/main.py:138 | `https://example.com/` gives the fragment `example_com_` |
| `Naming.ExampleKey` | api/main.py:137-139 | `https://example.com/` at `now` gets the key `qr_codes/example_com__<now>.png` |
| `Handlers.S3UrlKeyRoundTrip` | api/main.py:151 | the key can be read back from its public address, and that address is the only one in the bucket that yields it |
| `Handlers.GenerateQrNew` | api/main.py:116-173 | an upload is attempted iff encoding succeeded, carrying the PNG under `Key(url, now)` as `image/png`; success iff the store accepted it, with record `{true, https://<bucket>.s3.amazonaws.com/<key>, url, key}`; every failure is 500, "Failed to upload to S3: " for a `ClientError` and "Error generating QR code: " otherwise |
| `Handlers.GenerateEndpoint` | api/main.py:110-117 | a body that fails validation gets 422 and no upload; a valid one is answered by `generate_qr_new` on the normalised URL |
| `Handlers.GenerateQrLegacy` | api/main.py:175-185 | every failure is 400 with the prefix "Invalid URL provided: "; an invalid URL attempts no upload; otherwise the upload and success are the delegate's, and a delegate error's text is nested as `<status>: <detail>` |
| `Handlers.LegacyMasksUploadFailure` | api/main.py:162-185 | an S3 `ClientError` reaches a legacy caller as 400 "Invalid URL provided: 500: Failed to upload to S3: <error>" |
| `Handlers.LegacyAgreesOnSuccess` | api/main.py:175-185 | for input that validates, `/generate` and `/generate-qr/` store the same object and succeed together with the same record |
| `Handlers.SuccessRecordShape` | api/main.py:151-160 | a success record's address yields its `file_name`, which starts with `qr_codes/` and parses back to the URL's fragment and the clock reading |
| `Handlers.ExampleRequest` | api/main.py:136-160 | a successful request for `https://example.com/` records `file_name` `qr_codes/example_com__<now>.png` |
| `Config.SelectClient` | api/main.py:49-67 | explicit credentials iff both resolved keys are non-empty; `AWS_ACCESS_KEY_ID` wins over `AWS_ACCESS_KEY` and `AWS_SECRET_ACCESS_KEY` over `AWS_SECRET_KEY` when non-empty; region is `AWS_REGION` when set (even empty), else `us-east-1` |
| `Config.BucketName` | api/main.py:73 | `BUCKET_NAME` when set, else the placeholder `YOUR_BUCKET_NAME` |
| `Config.Health` | api/main.py:90-108 | status is always `healthy`; `s3_access` is `accessible` iff the probe succeeded and `error: <text>` otherwise; `auth_method` is `Explicit` iff `AWS_ACCESS_KEY_ID` is non-empty, else `IRSA` |
| `Config.Root` | api/main.py:75-88 | status `running`, version `1.0`, `auth_method` `Explicit Credentials` iff `AWS_ACCESS_KEY_ID` is non-empty, and three listed endpoints |
| `Config.AuthLabelCanDisagree` | api/main.py:49-108 | some environment gets explicit credentials but reports `IRSA`, and some gets the ambient role but reports `Explicit` |

## Left out

- QR rasterisation and PNG serialisation (`qrcode.QRCode`, `make_image`, `img.save`, the `BytesIO` buffer; api/main.py:120-134) are foreign library calls. They are an `encode` parameter that yields bytes or an error text.
- `boto3` client construction, `put_object` and `head_bucket` are network I/O. Construction is reduced to the credential choice (`Config.SelectClient`); the other two are outcome parameters (`StoreOutcome`, `Probe`). A failure while building the client at start-up (the re-raise at api/main.py:68-70) stops the process and is not modelled.
- Pydantic's `HttpUrl` parsing and normalisation (api/main.py:33-34, 117, 182) is a foreign validator. It is a `validate` parameter that yields the normalised URL text or the error text.
- For a `/generate` body that fails validation, FastAPI's 422 `detail` is a JSON list of errors; it is modelled as that error's text. A legacy call without the `url` query parameter is also answered by FastAPI and is not modelled.
- `datetime.now()`, `os.getenv` and `load_dotenv` are the clock and the environment. They are passed in as a `Timestamp` and an environment map.
- CORS middleware, FastAPI routing, `async` and `print` logging are framework and I/O concerns without effect on the responses modelled.
- Naming.Sanitize: `\w` is taken to be ASCII letters, digits and `_`. Python 3's `\w` also matches non-ASCII letters and digits, which the source keeps and this model turns into `_`.
- Timestamps.Render: every field is zero-padded to its width, the year to four digits. Python builds whose C library does not pad `%Y` print years below 1000 with fewer digits, so for those years only the model's 22-character width is not what such a build gives.
- The Next.js front end (`front-end-nextjs/src/app/page.js`) is UI state.
- The Next.js route handlers are `fetch` proxies that pass status codes through. `next.config.js` is static configuration.
