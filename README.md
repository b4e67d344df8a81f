# activflow-reporter in Dafny

activflow-reporter is a polling worker. Each iteration of its loop does four things:

1. It signs in to the CORE service and lists the reports not yet delivered.
2. For each report it fetches the activity records between the report's start and end dates.
3. It renders those records as a spreadsheet under `./temp/<code>.xlsx` and uploads the file to object storage.
4. It notifies CORE of the stored object's name and URL, then deletes the temporary file.

This project models that logic and proves properties of the model.

| file | module | models |
|---|---|---|
| `common.dfy` | `Common` | `Option`, `Result`, and the Python exception classes that the modelled paths raise |
| `timestamps.dfy` | `Timestamps` | `convert_iso_to_yyyy_mm_dd` and `convert_iso_to_yyyy_mm_dd_hh_mm_ss`: `replace("Z", "")`, then `strptime` with `%Y-%m-%dT%H:%M:%S.%f`, then `strftime` |
| `report_table.dfy` | `ReportTable` | the table `generate_activity_report` builds before pandas writes it: columns, one row dictionary per record, file-storage cells resolved to URLs, and the projection onto the columns |
| `upstream.dfy` | `Upstream` | the status rule of `make_get/post/patch_request`, and the envelopes of the four `core_*` calls |
| `delivery.dfy` | `Delivery` | `treat_report`, as a specification function `Treat` and as a method on a `World` (the calls made and the files under `./temp/`) and a `Report` (the report dictionary, updated in place) |
| `poll.dfy` | `Poll` | one iteration of the `while True` loop of main.py, as a function `Cycle` and a method `RunCycle` |

**External calls.** Every call to the outside is a parameter that stands for its outcome.
- An HTTP request is an `Exchange`: it either raised, or it returned a status and a body.
- The upload is an `UploadResult`.
- `minioservice.get_file_url` is a total function `resolve`.
- `MINIO_TYPES` is the set `fileTypes`.
- For one report, the answers of the outside world form a `Fate`. The i-th report of a listing meets `fates(i)`.

**Recording effects.** The calls with an effect are recorded as `Event`s in `World.trace`, in the order they are made. `World.files` holds the paths present under `./temp/`.

## Behaviour as written

Three properties of the code shape every contract here.

- **No `core_*` call returns `success: False`.** Their `else` branch calls `.json()` on the `None` that the request helper returned, so it raises. The `except` logs the error and the function returns `None`. Every failure is therefore `None`, and every envelope says `success: True` (`Upstream.CoreEnvelope`).
- **Each `None` is handled differently by the two callers.**
  - In `treat_report`, `None.get(...)` raises and the catch-all absorbs it.
  - In the poll loop, nothing guards it. A failed sign-in or listing ends the worker with AttributeError (`Poll.CycleCrashes`).
  - As a consequence, the `else` branches at main.py:43-44 and functions.py:59-61 are never taken.
- **`treat_report` removes the temporary file only after a successful notification** (`Delivery.TreatCleanup`). The intent is that the file is removed whether or not the notification succeeded. As written, a failed notification returns `None`, and `.get("success")` raises before `os.remove` is reached. A failed upload skips the removal too. In both cases the file stays under `./temp/`. The model follows the code.

## Model

| member | source | states |
|---|---|---|
| Timestamps.RemoveZ | utilities.py:95-96 | `replace("Z", "")`: the result holds no `Z`, holds only characters of the input, and is the input itself when that holds no `Z` |
| Timestamps.FieldAt | utilities.py:95-96 | a run of digits followed by a separator of the format, which no directive can consume, is cut out as one field, and parsing resumes right after the separator |
| Timestamps.Split | utilities.py:95-96 | cutting at the format's separators succeeds only on text holding a `.`: the fraction is mandatory |
| Timestamps.Decode | utilities.py:95-96 | fields that pass their directives give a date-time only when the calendar accepts it |
| Timestamps.Strptime | utilities.py:95-96 | what `strptime` returns is a valid date-time, and only for text holding a `.` |
| Timestamps.FormatDate | utilities.py:98-99 | `strftime("%Y-%m-%d")` is ten characters, four digits of year, with `-` at positions 4 and 7 |
| Timestamps.FormatTime | utilities.py:113-114 | the `%H:%M:%S` part is eight characters with `:` at positions 2 and 5 |
| Timestamps.ToDate | utilities.py:87-99 | a converted date is ten characters with `-` at positions 4 and 7 |
| Timestamps.ToDateTime | utilities.py:102-114 | a converted date-time is nineteen characters with a blank at 10 and `:` at 13 |
| Timestamps.Pad2Value | utilities.py:98-99 | two-digit zero padding prints back the number it was given |
| Timestamps.Pad3Value | utilities.py:95-96 | three-digit zero padding prints back the number it was given |
| Timestamps.Pad4Value | utilities.py:98-99 | four-digit zero padding prints back the number it was given |
| Timestamps.SplitIso | utilities.py:95-96 | deleting the `Z` of the millisecond form and cutting at the separators gives back that form's seven fields |
| Timestamps.DecodeIso | utilities.py:95-96 | the fields of the millisecond form decode to the date-time they were printed from |
| Timestamps.ParseIso | utilities.py:95-96 | `strptime` inverts the millisecond form `YYYY-MM-DDTHH:MM:SS.fffZ` of any valid date-time |
| Timestamps.ConvertIsoValues | utilities.py:87-114 | on the millisecond form, both converters print the date-time that was parsed |
| Timestamps.IsoPrefix | utilities.py:87-114 | in the millisecond form, the printed date is characters 0-9 and the printed time is characters 11-18 |
| Timestamps.ConvertIso | utilities.py:87-114 | on the millisecond form, the date converter returns the first ten characters, and the date-time converter returns those ten, a blank, then `HH:MM:SS` |
| Timestamps.DateIsPrefix | utilities.py:87-114 | the two converters succeed on the same inputs, and the date is the first ten characters of the date-time |
| Timestamps.FractionRequired | utilities.py:95-96 | a string without `.` is refused by both converters |
| Timestamps.Example | utilities.py:91-99 | `"2025-02-24T00:00:00.000Z"` converts to `"2025-02-24"` and to `"2025-02-24 00:00:00"` |
| Timestamps.StrptimeText | utilities.py:95-96 | text laid out like the millisecond form parses exactly when its fields pass their directives and the calendar |
| Timestamps.ImpossibleDay | utilities.py:95-96 | `"2025-02-30T00:00:00.000Z"` is refused by both converters |
| ReportTable.SplitCommas | utilities.py:187 | `str.split(",")` gives one piece more than there are commas, and no piece holds a comma |
| ReportTable.JoinSplit | utilities.py:185-188 | joining the pieces of a split with commas gives the string back |
| ReportTable.SplitJoin | utilities.py:185-188 | splitting a join of comma-free pieces gives the pieces back |
| ReportTable.FileCell | utilities.py:184-191 | a file-storage cell holds one resolved URL per comma-separated piece of `str(value)`, in order; any other type keeps its value |
| ReportTable.LabelsMembers | utilities.py:169-173 | the extracted labels are exactly the non-empty labels of the first record's fields |
| ReportTable.LabelsAppend | utilities.py:169-173 | label extraction keeps the fields' order |
| ReportTable.LabelsAllNamed | utilities.py:169-178 | when every field has a non-empty label, the labels are all of them, in order |
| ReportTable.RowDictSpec | utilities.py:184-191 | a row dictionary raises KeyError exactly when some field lacks a `label`; otherwise its keys are the named labels |
| ReportTable.RowDictLast | utilities.py:184-191 | the cell stored under a label is that of the last field carrying it |
| ReportTable.RowsFailure | utilities.py:181-199 | when building the rows raises, some record could not be turned into a row |
| ReportTable.RowsSuccess | utilities.py:181-199 | otherwise there is one row dictionary per record, in order, each built from its own record |
| ReportTable.TableColumns | utilities.py:164-178 | the columns come from the first record alone: `HORODATEUR`, then exactly its non-empty labels; later records add no column |
| ReportTable.TableRows | utilities.py:181-200 | one row per record in input order, each the record's dictionary projected onto the columns |
| ReportTable.TimestampCell | utilities.py:196-198 | every row's `HORODATEUR` cell is the record's `createdAt` converted to `YYYY-MM-DD HH:MM:SS`, and it overrides any field with that label |
| ReportTable.FieldCell | utilities.py:184-200 | a column's cell is the cell of the record's last field carrying that label |
| ReportTable.MissingCell | utilities.py:200 | a column whose label the record lacks is left empty |
| ReportTable.TableFailure | utilities.py:164-199 | the table fails exactly when the record list is empty (`report_data[0]`) or some record cannot be turned into a row |
| ReportTable.GenerateActivityReport | utilities.py:151-201 | the loop that appends one dictionary per record builds exactly the table above, or raises as it does; an empty list raises IndexError; the path is `./temp/<output_file>` |
| Upstream.AcceptStatus | utilities.py:117-148 | GET and PATCH keep a response only on status 200, and POST only on 201 |
| Upstream.CoreEnvelope | utilities.py:231-248 | a `core_*` call returns an envelope exactly when the response was kept and its body is a JSON object; the envelope says `success: True` and carries the body's data; no call returns `success: False` |
| Upstream.ActivityPayloadSpec | utilities.py:297-310 | the activity request is made only when both report dates are strings the date converter accepts; the payload holds the converted dates and the report's `activityId` |
| Upstream.ActivityPayloadDates | utilities.py:304-308 | with dates in the millisecond form, the payload carries their first ten characters |
| Upstream.IsoDateArgument | utilities.py:306-307 | a date in the millisecond form is sent as its first ten characters |
| Delivery.TreatReport | functions.py:7-68 | `treat_report` on the world: the calls it makes, the report it leaves and the files it leaves are those of `Treat`; it never raises |
| Delivery.ProcessActivityData | functions.py:14-37 | the steps after the activity request (envelope and data checks, render) make the calls of `Fetched` |
| Delivery.BuildAndPublish | functions.py:23-37 | building the table, writing the file and publishing it make the calls of `Built`: nothing at all when the table cannot be built |
| Delivery.FetchedBuilt | functions.py:14-37 | after the activity request, `treat_report` goes on exactly with the records it got back (nothing when there are none) and builds and publishes the table from them |
| Delivery.Publish | functions.py:39-64 | upload, report update, notification and removal make the calls of `Published` |
| Delivery.TreatStops | functions.py:14-21 | when the request brings back no records, or the table cannot be built, nothing follows the activity request |
| Delivery.TreatRenders | functions.py:14-32 | once the table is built, the calls are the request, then the render, then those of `Published` |
| Delivery.PublishedOrder | functions.py:39-64 | after the render the calls are upload, notification, removal, each made only when the one before returned |
| Delivery.PublishedCalls | functions.py:39-64 | the upload is of `<code>.xlsx`; the report then records the stored object; the notification goes to `/<id>` with the token, the object name and the URL; the file is removed exactly when the notification got status 200 and a JSON object |
| Delivery.TreatQuiet | functions.py:14-21 | with nothing to render, at most the activity request is made, and the report and the files are unchanged |
| Delivery.TreatRendered | functions.py:14-32 | once rendered, the calls are the request, the render of the table to `./temp/<code>.xlsx`, then those of `Published` |
| Delivery.TreatOrder | functions.py:14-64 | the calls form a prefix of fetch, render, upload, notify, remove: each comes at most once, in that order, and none is made unless all the earlier ones were |
| Delivery.TreatRender | functions.py:14-32 | the activity request is made exactly when both dates convert; the render happens exactly when records came back and every record became a row |
| Delivery.TreatUpload | functions.py:39-55 | after a render the spreadsheet is uploaded; when the upload returns, `filename` and `filelink` become the object's name and URL, and the service is notified at `/<id>` with those two values |
| Delivery.TreatKeepsEntries | functions.py:49-50 | no entry of the report changes except `filename` and `filelink`, and none is removed |
| Delivery.TreatCleanup | functions.py:51-68 | the temporary file is removed, as the last call, exactly when the notification got status 200 and a JSON object; after any other failure that follows the render, the file stays; no other file changes |
| Delivery.TreatToken | functions.py:7-55 | every request `treat_report` makes carries the token it was given |
| Poll.RunCycle | main.py:18-44 | one loop iteration on the world: the calls, the files and the way it ends are those of `Cycle` |
| Poll.ListAndTreat | main.py:24-37 | once the token is known, the listing and the treatment of what it returned make the calls of `Listed` |
| Poll.TreatListed | main.py:35-37 | a non-empty listing is handed to the `for` loop in full, and the iteration ends having processed every report |
| Poll.ListedStops | main.py:25-33 | a failed, empty or data-less listing ends the iteration right after the listing request, with no file touched |
| Poll.ListedTreats | main.py:25-37 | a non-empty listing is followed by the calls of every report's treatment, in list order |
| Poll.TreatEach | main.py:35-37 | the `for` loop makes the calls of `treat_report` on each report in turn, each with its own answers |
| Poll.FetchesOfTreat | functions.py:14 | `treat_report` makes exactly one activity request when the report's dates convert, and none otherwise |
| Poll.TreatAllFetches | main.py:35-37 | every report of the list is processed once, in list order, whatever happened to earlier ones: the batch's activity requests are those of the reports whose dates convert |
| Poll.TreatAllToken | main.py:35-37 | the batch holds only calls of `treat_report`, all made with the same token |
| Poll.LoginToken | main.py:18-22 | `jwt_token` is the login data's `jwt` exactly when the sign-in got status 201 and an object whose data is a dictionary; every other outcome raises AttributeError; the initial `None` never reaches the listing, and the token is None only when the data's `jwt` entry is missing or null |
| Poll.CycleCrashes | main.py:18-27 | a failed sign-in, or a failed listing, ends the iteration with AttributeError; no listing follows a failed sign-in; the branch that logs a rejected listing is never taken |
| Poll.CycleIdle | main.py:29-33 | the iteration goes straight to the wait exactly when the listing is empty; no report is processed and no file changes |
| Poll.CycleProcesses | main.py:24-37 | a non-empty listing is processed in full, in list order and with one token: after the sign-in and the listing, the activity requests are those of the reports whose dates convert |

## Left out

- Logging, `print`, and the configuration and file helpers (`get_logger`, `load_json`, `save_json`, `get_env_var(s)`, utilities.py:20-84) are not modelled.
- HTTP mechanics are not modelled: URL building, headers, JSON encoding of payloads, and `rq.request`. A request is an abstract `Exchange`. An exception while building the URL also ends in `None`, the same as `Raised`.
- The spreadsheet write (`pd.DataFrame(...).to_excel`) is not modelled. Its content is the projected `Table`, and the `Render` event stands for the write.
- `MinioService` is not part of this model.
  - The upload is an abstract `UploadResult`, and `get_file_url` is a total function.
  - The model assumes that constructing `MinioService()` does not raise, and neither does `get_file_url`.
- The model assumes that `open` and `os.path.getsize` on the freshly written file succeed. The stream is never closed, and that is not modelled.
- Only one iteration of `while True` is modelled. The 30-second `sleep` and the loop itself are left out.
- The commented-out joblib path (main.py:39-41) is not modelled. It is disabled, and it would be concurrent.
- Duplicate labels in the first record are left out. How pandas treats repeated column names is library behaviour.
- A field's `type` and `value` entries are assumed present. A field whose `type` or `value` is missing (a KeyError) is not modelled.
- Field values are JSON scalars. Nested lists, objects and floats, and their `str`, are not modelled.
- Listing data is assumed to be a list of dictionaries or missing. Any other JSON value under `data` is not modelled.
- `strptime`'s `\d` also matches non-ASCII digits. The model accepts ASCII digits only.
- Timestamps.FormatDate: years below 1000 are printed with four digits. Some CPython and libc versions print them without padding.
- The `to_excel` write is assumed never to raise: the `Render` event always succeeds, although openpyxl can reject some cell text, such as control characters.
- Field labels are strings, null or absent. Other label values that Python counts as true are not modelled.
- The logger is assumed present. `logger.info` at functions.py:11 runs outside the `try`, so a missing logger would raise out of `treat_report`; the model's `TreatReport` never raises.
- Delivery.TreatReport: an exception inside the `except` handler itself is not modelled, because that handler only prints.
