# Chunked upload client for a mobile-assessment scanning service

This project models the core of a short Ruby script, `main.rb`. The script authenticates with the scanning service's OAuth2 client-credentials token endpoint. It then asks the service which assessment types a release offers, picks the one whose frequency type matches the requested one, and uploads a mobile binary to the start-scan endpoint in 1 MiB fragments.

Modules, one per component of the script:

- `Wrappers`: `Option` (Ruby's nil) and `Result` (Ruby's thrown errors).
- `Errors`: the four ways a run stops early.
- `Text`: the wire forms of values.
  - Ruby's decimal rendering of integers, with a parser and a round-trip lemma.
  - Splitting and joining strings.
  - URLs made of a path and `key=value&...` query pairs, with a parser and a round-trip lemma.
- `Endpoints`: the pure builders of `main.rb`.
  - `get_base_url`.
  - The `client` record.
  - The token request and the 2xx decision of `authentication`.
  - The `Authorization` header.
  - The assessment-types URL and the start-scan URL.
- `Selection`: the loop over `items` that chooses the assessment type.
  - It is written as a `for` loop over the three variables of the script.
  - It is proved equal to a reference function `Select`, whose properties are proved as lemmas.
- `Upload`: the `upload` loop.
  - It is written as a `while` loop over a read position into the file's bytes.
  - It is proved against a closed-form plan of fragments, `Plan`.
  - The lemmas show that `Plan` reassembles the file and numbers, sizes and places its fragments as the script does.
- `Flow`: the top level of the script (authenticate, resolve, select, upload).
  - Each stage runs only when the one before it succeeded.

The service is represented by three function parameters, one per endpoint, from a request to the parsed reply. The start-scan endpoint returns `None` when the post or the parsing of its reply raises; `upload` turns that into an upload error. The list of fragments posted is a real output of `UploadFile` and `Run`.

`get_base_url` in the source interpolates `dc`, a name the method does not define, instead of its parameter `datacenter` (main.rb:9 and main.rb:11). As written, every call raises NameError. The model follows the evidently intended form, `BaseUrl`, which uses the parameter. The defect is recorded under "## Findings".

## Model

| member | source | states |
|---|---|---|
| `Endpoints.BaseUrlHosts` | main.rb:7-13 | "fed" gives `https://api.fed.fortifygov.com`; any other code `d` gives `https://api.` + d + `.fortify.com` |
| `Endpoints.BaseUrlNamesDatacenter` | main.rb:7-13 | the datacenter code can be read back from the base URL, and the host is the government one exactly for "fed" |
| `Endpoints.BaseUrlInjective` | main.rb:7-13 | two different datacenter codes never give the same base URL |
| `Endpoints.BaseUrlAsWrittenRaises` | main.rb:7-13 | as written, `get_base_url` cannot resolve `dc` and raises for every datacenter, never producing the intended URL |
| `Endpoints.MakeClient` | main.rb:15-23 | the client keeps the credentials, its base URL names the configured datacenter, and the grant type is `client_credentials` with scope `start-scans` |
| `Endpoints.TokenRequestFields` | main.rb:35-49 | the token request is a POST to base + `/oauth/token` with `Accept: application/json`; its form has exactly the four fields client_id, client_secret, grant_type, scope, in that order, with the client's values |
| `Endpoints.Authenticate` | main.rb:50-54 | a token is returned only for a 2xx status with a parseable body; every non-2xx status gives AuthenticationError and no token |
| `Endpoints.AuthorizationSplits` | main.rb:80 | the Authorization value is the token type, one space and the access token, and both parts are recovered by splitting at the first space |
| `Endpoints.AssessmentTypesUrlText` | main.rb:76 | the assessment-types URL is base + `/api/v3/releases/` + release + `/assessment-types?scanType=` + type |
| `Endpoints.AssessmentTypesUrlParses` | main.rb:76 | the assessment-types URL parses back to its path and the single query pair scanType = the requested type |
| `Endpoints.AssessmentTypesRequestFields` | main.rb:75-83 | the assessment-types call is a GET with no body to the URL of main.rb:76, with headers Accept `application/json` and Authorization = token type, space, access token |
| `Endpoints.StartScanUrlParses` | main.rb:100-104 | the start-scan URL parses back to the path base + `/api/v3/releases/` + release + `/mobile-scans/start-scan` and exactly the query pairs it was built from |
| `Endpoints.StartScanQueryFields` | main.rb:98-104 | the query lists assessmentTypeId, entitlementFrequencyType, entitlementId, fragNo, frameworkType, isRemediationScan, offset, platformType, releaseId, startDate, timeZone in that order; id, fragment number and offset read back exactly; timeZone is `GMT Standard Time` |
| `Text.IntRoundTrip` | main.rb:101-103 | an integer interpolated into the URL (`-1` included) parses back to the same integer |
| `Text.UrlRoundTrip` | main.rb:100-104 | a URL built as path `?` `k=v&...` parses back to the same path and pairs, in order, when no key or value holds `&`, `=` or `?` |
| `Selection.SelectAssessment` | main.rb:143-158 | the loop's outcome equals the reference selection `Select` for every list of items |
| `Selection.LastMatchIsLast` | main.rb:146-150 | the chosen item matches the requested frequency and no later item does; there is none exactly when no item matches |
| `Selection.AnyRemediationExists` | main.rb:151 | the remediation flag is on exactly when some matching item has `isRemediation` true |
| `Selection.SelectChoosesLastMatch` | main.rb:143-152 | a selection carries the id of the last matching item, the requested frequency, and "true" exactly when some matching item is a remediation (otherwise "false") |
| `Selection.SelectFails` | main.rb:154-155 | the selection fails, always with AssessmentNotFound, exactly when every matching item lacks an id or is followed by a later match; in particular when nothing matches |
| `Selection.SelectIgnoresOthers` | main.rb:147 | inserting an item of another frequency anywhere does not change the outcome |
| `Selection.SelectExample` | main.rb:143-152 | items of kinds A and B with B requested choose B; C requested finds nothing; a single OnDemand item 42 gives (42, OnDemand, "false") |
| `Upload.FragmentCount` | main.rb:110-126 | an empty file takes one fragment; a file of n > 0 bytes takes k fragments with (k-1) MiB < n <= k MiB |
| `Upload.UploadFile` | main.rb:109-130 | the posted fragments are a non-empty prefix of the plan, every one but possibly the last answered with a parseable reply; the upload succeeds exactly when every planned fragment gets a parseable reply (whatever its HTTP status), and then all of the plan was posted and the last fragment's reply is returned; otherwise UploadError |
| `Upload.ChunkRequestFields` | main.rb:87-105 | a fragment is a POST of its raw bytes to the start-scan URL built from its number and offset, with headers Accept `application/json`, Authorization = token type, space, access token, and Content-Type `application/octet-stream`, in that order |
| `Upload.PlanReassembles` | main.rb:113-126 | concatenating the data of the fragments in order gives back the file exactly |
| `Upload.PlanNumbering` | main.rb:113-125 | fragments are numbered 0, 1, ... and only the last carries -1; every fragment has the same start date |
| `Upload.PlanLength` | main.rb:113-126 | a non-empty file of n bytes is sent in ceil(n / 1 MiB) fragments |
| `Upload.PlanSizes` | main.rb:110-116 | every fragment but the last holds exactly 1,048,576 bytes; the last holds 1 to 1,048,576 bytes, or none for an empty file |
| `Upload.PlanOffsets` | main.rb:117 | the offset of fragment i, the last included, is i * 1 MiB, the number of bytes sent before it |
| `Upload.EmptyFilePlan` | main.rb:116-119 | an empty file is sent as one fragment -1 at offset 0 with no data |
| `Upload.SmallFilePlan` | main.rb:116-119 | a file of at most 1 MiB is sent whole as one fragment -1 at offset 0 |
| `Upload.ExactMultiplePlan` | main.rb:116-119 | a file of exactly m MiB is sent in m fragments; the m-th is a full 1 MiB and is the -1 fragment, with no empty one after it |
| `Flow.Run` | main.rb:132-159 | a failure before the upload ends the run with that error and no fragment posted; otherwise the posted fragments follow the plan, the run succeeds exactly when every planned fragment gets a parseable reply, a failure of the upload stage is UploadError, and success returns the last fragment's reply, which carries the scan id |
| `Flow.AuthenticationGate` | main.rb:50-53 | a non-2xx token response stops the run with AuthenticationError |
| `Flow.NoMatchStopsRun` | main.rb:143-155 | when no item has the requested frequency type, the run stops with AssessmentNotFound before any upload |

## Left out

- HTTP transport: `build_http_client`, proxy detection, `get` and `post` (main.rb:25-33, main.rb:57-73) are network I/O. The three endpoints are function parameters instead.
- Chunk reply status: `upload_chunk` never checks the HTTP status of a start-scan reply; it only parses the body. A fragment the service rejects with a JSON body therefore counts as sent, the loop goes on, and the final one is reported as a submitted scan. The model keeps this: `ReplyParses` asks only that the reply parse.
- JSON parsing: response bodies arrive already parsed. A token body that does not parse is `None` and gives MalformedResponse. An assessment-types body without an `items` list is `None` and also gives MalformedResponse (the source raises there).
- `URI.encode_www_form`: the token form is an ordered list of key/value pairs, and its percent-encoding is not modelled.
- `URI.parse`: whether the unescaped spaces in `startDate` and `timeZone` would be accepted is not modelled.
- Endpoints.StartScanUrlParses: proved only when the base URL and the release id hold no `?`, and no query value holds `&`, `=` or `?`. The source does not escape its values, so other values would not read back.
- Endpoints.AssessmentTypesUrlParses: proved only under the same condition on its values.
- Text.UrlRoundTrip: proved only under the same condition on its values.
- Endpoints.AuthorizationSplits: proved only for token types without a space.
- Environment reads (main.rb:17-19, main.rb:94-97, main.rb:132-134) become the `Settings` record.
- The clock (main.rb:111): the start date is a parameter, and its `%Y-%m-%d %H:%M` format is not modelled.
- Console output: the progress lines are not modelled. The scan id that the script prints is returned as the final reply.
- File opening: the file is an in-memory byte sequence. A file that cannot be opened (which the source turns into an upload error) is not modelled.
- Empty reads: Ruby's `read` returns nil at the end of an empty file, and the source posts that nil. The model posts empty data.
- JSON value kinds in `items`: `assessmentTypeId` is an integer or null. `isRemediation` counts only when it is the JSON value `true`. A null `frequencyType`, or an unset requested type, is not modelled.
- `throw`/`rescue` (main.rb:53, main.rb:128-129, main.rb:155) become the error variants of `Result`.

## Findings

| source | as written | input that shows it | evidently intended | confidence | as-written member | corrected member |
|---|---|---|---|---|---|---|
| main.rb:9-11 | both branches interpolate `dc`, which `get_base_url` does not define, so every call raises NameError | any datacenter code, e.g. "us" | interpolate the parameter `datacenter` | high (not executed) | `Endpoints.BaseUrlAsWrittenRaises` | `Endpoints.BaseUrlNamesDatacenter` |
