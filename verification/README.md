# Video catalogue and API client — a Dafny model

This project models the core of a small video-streaming site. The site has
two parts.

- The Flask backend (`backend/app.py`) keeps a table of `.mp4` files found
  in a media folder. Each row links to the next video through `next_id`.
  The backend serves video info, the "previous video" lookup with
  wrap-around, and the files themselves, including a case-insensitive
  fallback for file names.
- The browser client (`frontend/src/services/api.js`) builds request URLs,
  query strings and fetch options, and turns non-2xx responses into errors.

The modules follow those two files:

| module | file | models |
|---|---|---|
| `Wrappers` | wrappers.dfy | `Option` and `Result` |
| `Seqs` | seqs.dfy | duplicate-freedom, first-match search |
| `Strings` | strings.dfy | prefix and suffix tests, ASCII lower-casing, decimal rendering |
| `Http` | http.dfy | the error reply the routes share |
| `Catalogue` | catalogue.dfy | the `video` table, `scan_media_folder`, `update_next_ids` |
| `Navigation` | navigation.dfy | `list_videos`, `get_video_info`, `get_prev_video` |
| `MediaFiles` | media_files.dfy | `get_video_file`, `get_video` |
| `Api` | api.dfy | `getBaseUrl`, `getApiUrl`, `apiFetch`, `apiGet`, `apiPost`, `apiPut`, `apiDelete`, `videoApi.getVideos` |

## How the table is modelled

- The table is a `seq<Video>` in primary-key order. `SortedById` (ids strictly
  increase) is the representation invariant.
- `Valid` adds two conditions:
  - filenames are unique, as the column's `unique=True` constraint requires;
  - the last video has no `next_id`.
- `Chained` (every video but the last points at its successor) is a separate
  predicate. Every scan ends in a chained table.
- A scan inserts new rows with ids `max + 1, max + 2, …`, the way SQLite
  assigns integer primary keys. The ids follow the order in which the loop
  visits the directory's names. That order is the parameter `order`, any
  duplicate-free enumeration of the set `os.listdir` returns. Every theorem
  holds for every such order.
- A query `.first()` without `order_by` is modelled as the first row in id
  order.
- The filesystem is passed in as parameters:
  - `join` stands for `os.path.join`;
  - `pathExists` stands for `os.path.exists`;
  - `folder` stands for `MEDIA_FOLDER`;
  - `listing` is the directory listing.

## How the client is modelled

- The inputs of the client are explicit parameters:
  - `Env`: the `VITE_API_BASE_URL` and `DEV` environment values;
  - `Location`: `window.location`;
  - `encode`: the form-encoding `URLSearchParams` applies;
  - `dataJson`: the result of `JSON.stringify`;
  - `FetchReply`: what `fetch` resolved or rejected with.
- An `Options` value is a fetch options object. `None` means the property is
  absent. `Spread` is JavaScript's `{...a, ...b}`.

## Model

| member | source | states |
|---|---|---|
| Catalogue.UpdateNextIds | backend/app.py:47-52 | Every video but the last gets its successor's id in id order. Ids, filenames, paths and the last row are untouched, and the result is chained. |
| Catalogue.UpdateNextIdsKeepsChained | backend/app.py:47-52 | A table that is already chained is left exactly as it is. |
| Catalogue.UpdateNextIdsIdempotent | backend/app.py:47-52 | Running the relinking twice gives the same table as running it once. |
| Catalogue.UpdateNextIdsShort | backend/app.py:50-51 | With zero or one video nothing is linked. The loop range is empty and a lone video keeps whatever `next_id` it had. |
| Catalogue.SelectNew | backend/app.py:38-39 | A name is added iff it is listed, ends in `.mp4` and is not already recorded. Each such name is added once. |
| Catalogue.NewRecords | backend/app.py:40-42 | One row per new name, in order: the name, the folder joined with the name as its path, no `next_id`, and consecutive ids from the first free one. |
| Catalogue.Scan | backend/app.py:32-45 | A scan never shrinks the table, and it always ends with the `next_id` chain rebuilt. |
| Catalogue.ScanKeepsExisting | backend/app.py:34-42 | Existing rows keep their id, filename and path. Files deleted from disk are never removed. |
| Catalogue.ScanAddsNew | backend/app.py:38-42 | Every new row is a listed `.mp4` name that was not recorded before. Its path is the folder joined with the name, and its id is above every earlier id. |
| Catalogue.ScanRecordsExactlyMp4s | backend/app.py:34-42 | After a scan the recorded filenames are the old ones plus every listed `.mp4` name, and nothing else. |
| Catalogue.ScanNewIds | backend/app.py:41-44 | New rows get consecutive ids starting just after the largest existing id. |
| Catalogue.ScanNewNamesDistinct | backend/app.py:35-39 | No name is inserted twice in one scan, because the listing is a set. |
| Catalogue.ScanKeepsSorted | backend/app.py:41-44 | The table stays in strictly increasing id order. |
| Catalogue.ScanKeepsUnique | backend/app.py:38-42 | The scan never violates the unique-filename constraint on `filename` (line 18). |
| Catalogue.ScanKeepsLastUnlinked | backend/app.py:47-52 | The last video still has no successor after a scan. |
| Catalogue.ScanPreservesValid | backend/app.py:32-52 | A valid table stays valid through any scan, in any iteration order. |
| Catalogue.InitialScanValid | backend/app.py:27-30 | Starting from an empty table, the first scan gives a valid, fully chained catalogue of exactly the listed `.mp4` files. |
| Catalogue.ScanIdempotent | backend/app.py:32-45 | Rescanning an unchanged folder, in any order, changes nothing. |
| Navigation.ListVideos | backend/app.py:54-61 | One summary per video, carrying its id and filename. On a sorted table the ids are strictly increasing. |
| Navigation.GetVideoInfo | backend/app.py:63-72 | Succeeds iff a video has the requested id, and then returns that video's id, filename, file URL and `next_id`. Otherwise it is a 404. |
| Navigation.InfoOfRecord | backend/app.py:63-72 | On a sorted table, the info for a video's id is exactly that video's info. |
| Navigation.GetPrevVideo | backend/app.py:74-97 | The answer is the first video pointing at the id. Failing that, it is the first video with no successor. It fails with 404 "No previous video found" iff every video has a successor and none points at the id. |
| Navigation.PrevOfSuccessor | backend/app.py:74-86 | In a sorted, chained table the previous video of video i > 0 is video i - 1. |
| Navigation.PrevWrapsToLast | backend/app.py:87-96 | When nothing points at the id, a valid chained table answers with its last video. This covers the first video and unknown ids. |
| Navigation.PrevOfFirstIsLast | backend/app.py:87-96 | In a sorted, chained table whose last video has no successor, the first video's previous video is the last one (wrap-around). |
| Navigation.NextThenPrev | backend/app.py:63-86 | Following `next_id` and then asking for the previous video returns the info you started from. |
| Navigation.PrevAfterUpdate | backend/app.py:74-97 | After relinking a sorted table whose last video has no successor, "previous" walks the table backwards: i goes to i - 1, and 0 goes to the last video. |
| Navigation.ListAfterScan | backend/app.py:32-61 | After a scan, every listed `.mp4` file appears in the video list. |
| MediaFiles.GetVideoFile | backend/app.py:99-105 | Serves the file iff its joined path exists. Otherwise it is a 404 "Video not found". |
| MediaFiles.FileRoutesAgree | backend/app.py:99-134 | On an existing exact name both file routes serve that file, and only `get_video` fixes the `video/mp4` mimetype. When `get_video_file` fails, `get_video` can only serve a different name. |
| MediaFiles.ResolveName | backend/app.py:117-124 | The name `get_video` settles on is the request when it exists. Otherwise it is the first listed name equal to it ignoring case, and it always equals the request ignoring case. |
| MediaFiles.GetVideo | backend/app.py:113-134 | An existing exact name is served as `video/mp4`. Any served name exists and equals the request ignoring case, and a different name is the first case-insensitive match. A 404 means neither the request nor its first match exists. Its message names the first listed match when there is one, and the request otherwise. |
| MediaFiles.CaseVariantsResolveAlike | backend/app.py:119-124 | Two requests that differ only in case and both miss the exact check get the same answer, whenever the listing has a match. |
| MediaFiles.FirstMatchExists | backend/app.py:121-124 | A case-insensitive match in the listing implies there is a first one, which the loop's `break` selects. |
| MediaFiles.ServedNameIsStable | backend/app.py:113-134 | Requesting the name that was served gets the same reply again. |
| Api.GetBaseUrl | frontend/src/services/api.js:10-23 | The base URL always ends in `/api`. The priority is: a non-empty configured base first, then the dev proxy path, then the page's host on port 5003. |
| Api.BaseUrlIgnoresLocation | frontend/src/services/api.js:10-23 | Unless it is a production build with no configured base, the page location does not affect the base URL. |
| Api.NormalizeEndpoint | frontend/src/services/api.js:33 | The normalised endpoint starts with `/` and ends with the endpoint. It is unchanged iff the endpoint already starts with `/`, and otherwise it is one character longer. |
| Api.NormalizeIdempotent | frontend/src/services/api.js:33 | Normalising twice is the same as normalising once. |
| Api.GetApiUrl | frontend/src/services/api.js:30-35 | The URL is the base URL followed by the normalised endpoint. |
| Api.ApiUrlSlashInsensitive | frontend/src/services/api.js:30-35 | `x` and `/x` give the same URL. |
| Api.ApiUrlShape | frontend/src/services/api.js:30-35 | A `/` follows the base, and the URL ends with the endpoint as given. |
| Api.QueryString | frontend/src/services/api.js:75 | The query string is empty iff there are no parameters. |
| Api.WithQuery | frontend/src/services/api.js:76 | The endpoint is a prefix of the result. It is unchanged iff the query is empty, and otherwise `?` and the query follow it. |
| Api.Spread | frontend/src/services/api.js:54 | Every property the right-hand options have wins, and the rest come from the left. |
| Api.MergedHeaders | frontend/src/services/api.js:47-50 | The default headers: just the JSON content type without caller headers, and otherwise the JSON content type overridden by the caller's headers. |
| Api.FetchOptionsAsWritten | frontend/src/services/api.js:46-54 | Without caller headers the JSON content type is sent. With caller headers they replace it wholesale. Method and body are the caller's. |
| Api.FetchOptions | frontend/src/services/api.js:46-54 | The intended merge always sends a content type, which is JSON unless the caller overrides it. It sends every caller header with its value, and no other header. |
| Api.FetchOptionsAgreeWithoutHeaders | frontend/src/services/api.js:46-54 | Without caller headers the written merge and the intended merge agree. |
| Api.CheckOk | frontend/src/services/api.js:53-64 | The call resolves to the response iff it was delivered and is `ok`. A non-ok status and a network failure each become the matching error. |
| Api.ApiFetch | frontend/src/services/api.js:43-65 | The request goes to exactly the endpoint's `getApiUrl` URL, keeping the caller's method and body. Without caller headers it sends the JSON content type. With caller headers it sends exactly those. It resolves to the response iff that was delivered and `ok`. Otherwise it throws the status error or rethrows the network error. |
| Api.ApiFetchIntended | frontend/src/services/api.js:46-54 | The corrected request goes to exactly the endpoint's URL and resolves as `apiFetch` does. A content type is always sent, JSON unless the caller sets one, together with every caller header and its value, and no other header. |
| Api.ApiGet | frontend/src/services/api.js:74-80 | With no parameters the URL is the endpoint's plain URL. Otherwise it is the URL of the endpoint followed by `?` and the query string. Caller headers are sent exactly as given. |
| Api.DeleteOptions | frontend/src/services/api.js:123-126 | The method is DELETE unless the caller's options name another. Headers and body are the caller's. |
| Api.ApiDelete | frontend/src/services/api.js:119-128 | Builds the same URL as a GET, and uses the DELETE method when the caller names none. Caller headers are sent exactly as given. |
| Api.PostOptions | frontend/src/services/api.js:90-94 | Uses POST and the JSON body, each overridable by the caller's options. Headers are the caller's. |
| Api.ApiPost | frontend/src/services/api.js:89-96 | No query string is added, and the method is POST when the caller names none. Caller headers are sent exactly as given. |
| Api.ApiPut | frontend/src/services/api.js:104-110 | A PUT always sends exactly the method, the JSON content type and the body. |
| Api.AdminRequestsSendOnlyBearer | frontend/src/services/api.js:215-235 | Each admin request sends the bearer token as its only header, so `refreshFiles` posts JSON with no content type. The intended merge sends both headers, the content type being `application/json`. |
| Api.GetVideosParams | frontend/src/services/api.js:135-138 | `page` comes first and `per_page` second, and only `undefined` falls back to the defaults 1 and 50. Then come `random: true` if `random` is truthy and `seed` last if `seed` is truthy. Nothing else is sent. |
| Api.GetVideosParamsKeys | frontend/src/services/api.js:136-138 | `random` is sent iff the argument is truthy, and always as `true`. `seed` is sent iff it is truthy, with its own value. |
| Api.FalsySeedDropped | frontend/src/services/api.js:138 | A seed of 0, "", null or undefined gives the same request as no seed. |
| Api.GetVideos | frontend/src/services/api.js:135-140 | The URL always carries a query string after `/videos?`. |

## Left out

- Flask, SQLAlchemy and SQLite are not modelled as such. Routing,
  JSON serialisation, sessions and commits are replaced by pure functions
  over the table.
- Route precedence between `/api/videos/<int:video_id>` and
  `/api/videos/<path:filename>` is a Flask concern. Each handler is
  modelled on its own.
- `send_from_directory` (byte delivery, ranges, path safety) is out of
  scope. Its reply is modelled only as the name and mimetype it is asked to
  serve.
- The body of the 404 page from `get_or_404` is Flask's own HTML. It is
  modelled as status 404 with the message "Not Found".
- `created_at` carries no logic and is omitted from `Video`.
- `MediaFiles.SameIgnoringCase`: lower-casing is ASCII-only. Python's
  `str.lower` is full Unicode, which has no Dafny counterpart here.
- `Catalogue.Scan`: a row's `filepath` is `join(folder, name)`, and
  `os.path.join` itself is a parameter. The string lengths 255 and 512 of
  the columns are not enforced.
- `Catalogue.Scan`: ids are assumed to continue from the largest existing
  id. SQLite may reuse ids only after the largest row is deleted, which
  this code never does.
- The POST `/api/scan` route and `init_db` are direct calls of the scan and
  add no logic. `InitialScanValid` covers `init_db` on an empty table.
- The `__main__` block (port from `FLASK_PORT`, `app.run`) is process
  start-up.
- `Api.QueryString`: percent-encoding is the parameter `encode`, and object
  key order is the order of the given pairs.
- `Api.GetVideosParams`: JavaScript numbers are modelled as integers, so
  `NaN` and fractional values are out of scope.
- `Api.ApiFetch`: `console.error` logging is omitted. `response.json()` is
  not modelled, so a body that is not JSON is out of scope.
- An explicit `headers: undefined` property counts as an absent one.
- `videoApi.getVideo`, `getPrevVideo`, `getVideoFileUrl` and
  `getThumbnailUrl` are left out. So are `userApi`, `favoriteApi`,
  `dislikeApi` and `adminApi.generateThumbnails`. Each one only fixes an
  endpoint and parameters for the functions modelled above.
- The router, `main.js`, the Vite configuration and the test scripts are
  outside the core.

## Findings

| source | as written | input that shows it | evidently intended | confidence | as-written member | corrected member |
|---|---|---|---|---|---|---|
| frontend/src/services/api.js:46-54 | `{...defaultOptions, ...options}` copies the caller's `headers` property over the merged headers, so the default `Content-Type` is lost whenever the caller passes any header. | `adminApi.refreshFiles(userId)` sends a JSON body `{}` with only an `Authorization` header. | The merged headers (JSON content type plus the caller's headers) should be the ones sent, that is `{...options, headers: merged}`. | medium; not executed | Api.ApiFetch, Api.AdminRequestsSendOnlyBearer | Api.ApiFetchIntended |

`Api.ApiFetch` and the request functions built on it send the headers as
written. `Api.ApiFetchIntended` and `Api.FetchOptions` give the corrected
merge.
