/** `treat_report` (functions.py): fetch one report's activity data, stop if
    there is none, render the spreadsheet, upload it, notify the service of
    the stored object, then delete the temporary file, all inside one
    catch-all `except`. The calls made to the outside are recorded as a
    trace of events; the temporary directory is a set of paths. */
module Delivery {
  import opened Common
  import opened ReportTable
  import opened Upstream

  /** One report dictionary from the listing. `treat_report` writes its
      "filename" and "filelink" entries in place. */
  class Report {
    var entries: map<string, Json>

    constructor(entries: map<string, Json>)
      ensures this.entries == entries
    {
      this.entries := entries;
    }
  }

  /** A call with an effect outside the worker. */
  datatype Event =
    | LoginRequest
    | ListRequest(token: Json)
    | FetchRequest(token: Json, payload: Payload)
    | Render(path: string, table: Table)
    | UploadRequest(file: string)
    | DeliverRequest(token: Json, endpoint: string, filename: Json, filelink: Json)
    | Remove(path: string)

  /** The outside world as the worker changes it: the calls made so far and
      the files present under `./temp/`. */
  class World {
    var trace: seq<Event>
    var files: set<string>

    constructor(files: set<string>)
      ensures trace == [] && this.files == files
    {
      trace := [];
      this.files := files;
    }
  }

  /** What `MinioService().upload_file(...)` did: raised (or returned a
      value without `.get`), or returned a dictionary whose "object_name"
      and "object_url" entries are given (`JNull` when missing). */
  datatype UploadResult = UploadRaised | Uploaded(objectName: Json, objectUrl: Json)

  /** The answers the outside world gives to one report's requests. */
  datatype Fate = Fate(fetch: Exchange<seq<Record>>, upload: UploadResult, deliver: Exchange<Json>)

  /** The spreadsheet's file name: `f"{report.get('code')}.xlsx"`. */
  function OutputFile(entries: map<string, Json>): string
  {
    Str(Lookup(entries, "code")) + ".xlsx"
  }

  /** Where `generate_activity_report` writes that file. */
  function TempPath(entries: map<string, Json>): string
  {
    "./temp/" + OutputFile(entries)
  }

  // ---------------------------------------------------------------------------
  // `treat_report` as a value

  /** The calls `treat_report` makes, the report dictionary it leaves and
      the files it leaves under `./temp/`. */
  datatype Treated = Treated(events: seq<Event>, entries: map<string, Json>, files: set<string>)

  /** `t` preceded by the events `pre`. */
  function After(pre: seq<Event>, t: Treated): Treated
  {
    Treated(pre + t.events, t.entries, t.files)
  }

  /** `treat_report(env_vars, token, report)`: every return, early or
      through the `except`, ends one of the branches of these three
      functions. Without a payload `core_get_activity_data` raises before
      its request. */
  function Treat(entries: map<string, Json>, payload: Option<Payload>, files: set<string>,
                 token: Json, fate: Fate,
                 fileTypes: set<string>, resolve: string -> string): Treated
  {
    match payload
    case None => Treated([], entries, files)
    case Some(p) =>
      After([FetchRequest(token, p)], Fetched(entries, files, token, fate, fileTypes, resolve))
  }

  /** What follows the activity request: the envelope and data checks, then
      the render. */
  function Fetched(entries: map<string, Json>, files: set<string>, token: Json, fate: Fate,
                   fileTypes: set<string>, resolve: string -> string): Treated
  {
    match Core(Post, fate.fetch)
    case None => Treated([], entries, files)
    case Some(envelope) =>
      if !envelope.success then Treated([], entries, files)
      else match envelope.data
        case None => Treated([], entries, files)
        case Some(records) =>
          if |records| == 0 then Treated([], entries, files)
          else match BuildTable(records, fileTypes, resolve)
            case Failure(_) => Treated([], entries, files)
            case Success(table) =>
              After([Render(TempPath(entries), table)], Published(entries, files + {TempPath(entries)}, token, fate))
  }

  /** What follows a non-empty answer: the table is built from the records,
      written to the temporary file and published; a failure while building
      it ends the treatment with nothing done. */
  function Built(entries: map<string, Json>, files: set<string>, token: Json, fate: Fate,
                 records: seq<Record>, fileTypes: set<string>, resolve: string -> string): Treated
  {
    match BuildTable(records, fileTypes, resolve)
    case Failure(_) => Treated([], entries, files)
    case Success(table) =>
      After([Render(TempPath(entries), table)], Published(entries, files + {TempPath(entries)}, token, fate))
  }

  /** What follows the render: the upload, the report update, the
      notification and the removal of the temporary file. */
  function Published(entries: map<string, Json>, files: set<string>, token: Json, fate: Fate): Treated
  {
    var upload := [UploadRequest(OutputFile(entries))];
    match fate.upload
    case UploadRaised => Treated(upload, entries, files)
    case Uploaded(name, url) =>
      var updated := entries["filename" := name]["filelink" := url];
      var notify := upload + [DeliverRequest(token, DeliverEndpoint(updated), name, url)];
      if CoreDeliver(fate.deliver).None? then Treated(notify, updated, files)
      else Treated(notify + [Remove(TempPath(entries))], updated, files - {TempPath(entries)})
  }

  /** `Fetched` is `Built` on the records the request brought back: the
      inline match in `Fetched` and `Built` are the same step. */
  lemma FetchedBuilt(entries: map<string, Json>, files: set<string>, token: Json, fate: Fate,
                     fileTypes: set<string>, resolve: string -> string)
    ensures Fetched(entries, files, token, fate, fileTypes, resolve) ==
      match FetchedRecords(fate)
      case None => Treated([], entries, files)
      case Some(records) => Built(entries, files, token, fate, records, fileTypes, resolve)
  {
    CoreEnvelope(Post, fate.fetch);
  }

  /** The records the activity request brought back, when it brought any. */
  function FetchedRecords(fate: Fate): Option<seq<Record>>
  {
    var envelope :- Core(Post, fate.fetch);
    var records :- envelope.data;
    if |records| == 0 then None else Some(records)
  }

  /** The table is built: the request was made, brought records back, and
      every record became a row. */
  predicate Renders(payload: Option<Payload>, fate: Fate, fileTypes: set<string>, resolve: string -> string)
  {
    && payload.Some?
    && FetchedRecords(fate).Some?
    && BuildTable(FetchedRecords(fate).value, fileTypes, resolve).Success?
  }

  /** `Fetched` when the table cannot be built: nothing follows the request. */
  lemma FetchedStops(entries: map<string, Json>, files: set<string>, token: Json, fate: Fate,
                     fileTypes: set<string>, resolve: string -> string)
    requires FetchedRecords(fate).None? || BuildTable(FetchedRecords(fate).value, fileTypes, resolve).Failure?
    ensures Fetched(entries, files, token, fate, fileTypes, resolve) == Treated([], entries, files)
  {
  }

  /** `Treat` when it stops right after the activity request. */
  lemma TreatStops(entries: map<string, Json>, payload: Option<Payload>, files: set<string>,
                   token: Json, fate: Fate,
                   fileTypes: set<string>, resolve: string -> string)
    requires payload.Some?
    requires FetchedRecords(fate).None? || BuildTable(FetchedRecords(fate).value, fileTypes, resolve).Failure?
    ensures Treat(entries, payload, files, token, fate, fileTypes, resolve) ==
      Treated([FetchRequest(token, payload.value)], entries, files)
  {
    FetchedStops(entries, files, token, fate, fileTypes, resolve);
    assert [FetchRequest(token, payload.value)] + [] == [FetchRequest(token, payload.value)];
  }

  /** `Treat` once the table is built: the request, the render, then the rest. */
  lemma TreatRenders(entries: map<string, Json>, payload: Option<Payload>, files: set<string>,
                     token: Json, fate: Fate,
                     fileTypes: set<string>, resolve: string -> string)
    requires Renders(payload, fate, fileTypes, resolve)
    ensures Treat(entries, payload, files, token, fate, fileTypes, resolve) ==
      After([FetchRequest(token, payload.value),
             Render(TempPath(entries), BuildTable(FetchedRecords(fate).value, fileTypes, resolve).value)],
            Published(entries, files + {TempPath(entries)}, token, fate))
  {
    CoreEnvelope(Post, fate.fetch);
    var records := FetchedRecords(fate).value;
    assert Core(Post, fate.fetch).value.data == Some(records);
    var table := BuildTable(records, fileTypes, resolve).value;
    var rest := Published(entries, files + {TempPath(entries)}, token, fate);
    assert Fetched(entries, files, token, fate, fileTypes, resolve) == After([Render(TempPath(entries), table)], rest);
    var fetch := FetchRequest(token, payload.value);
    assert Treat(entries, payload, files, token, fate, fileTypes, resolve) ==
      After([fetch], After([Render(TempPath(entries), table)], rest));
    assert [fetch] + ([Render(TempPath(entries), table)] + rest.events)
        == [fetch, Render(TempPath(entries), table)] + rest.events;
  }

  // ---------------------------------------------------------------------------
  // Properties of `treat_report`

  /** The place of each call in the sequence `treat_report` follows: fetch,
      render, upload, notify, remove. The cycle's own calls come before. */
  function Stage(e: Event): nat
  {
    match e
    case LoginRequest => 0
    case ListRequest(_) => 0
    case FetchRequest(_, _) => 1
    case Render(_, _) => 2
    case UploadRequest(_) => 3
    case DeliverRequest(_, _, _, _) => 4
    case Remove(_) => 5
  }

  /** A fetch and a render followed by calls at stages 3, 4, ... */
  lemma StagesAfter(fetch: Event, render: Event, rest: seq<Event>)
    requires Stage(fetch) == 1 && Stage(render) == 2
    requires forall i :: 0 <= i < |rest| ==> Stage(rest[i]) == i + 3
    ensures forall i :: 0 <= i < |[fetch, render] + rest| ==> Stage(([fetch, render] + rest)[i]) == i + 1
  {
  }

  /** After the render the calls are the upload, then the notification,
      then the removal, each made only when the one before it returned. */
  lemma PublishedOrder(entries: map<string, Json>, files: set<string>, token: Json, fate: Fate)
    ensures var p := Published(entries, files, token, fate);
      && 1 <= |p.events| <= 3
      && forall i :: 0 <= i < |p.events| ==> Stage(p.events[i]) == i + 3
  {
  }

  /** The upload is of `<code>.xlsx`; when it returned, the report records
      the stored object and the service is notified at `/<id>` with the
      token and that object, and the file is removed exactly when the
      notification was answered with status 200 and a JSON object. */
  lemma PublishedCalls(entries: map<string, Json>, files: set<string>, token: Json, fate: Fate)
    ensures var p := Published(entries, files, token, fate);
      var delivered := fate.upload.Uploaded? && fate.deliver.Responded? && fate.deliver.status == 200
                       && fate.deliver.body.Object?;
      && p.events[0] == UploadRequest(OutputFile(entries))
      && (|p.events| >= 2 <==> fate.upload.Uploaded?)
      && (fate.upload.UploadRaised? ==> p.entries == entries)
      && (fate.upload.Uploaded? ==>
            && p.events[1] == DeliverRequest(token, "/" + Str(Lookup(entries, "id")),
                                             fate.upload.objectName, fate.upload.objectUrl)
            && p.entries == entries["filename" := fate.upload.objectName]["filelink" := fate.upload.objectUrl])
      && (|p.events| == 3 <==> delivered)
      && (delivered ==> p.events[2] == Remove(TempPath(entries)) && p.files == files - {TempPath(entries)})
      && (!delivered ==> p.files == files)
  {
    CoreEnvelope(Patch, fate.deliver);
    if fate.upload.Uploaded? {
      var updated := entries["filename" := fate.upload.objectName]["filelink" := fate.upload.objectUrl];
      assert Lookup(updated, "id") == Lookup(entries, "id");
    }
  }

  /** With nothing to render, `treat_report` makes at most the activity
      request (exactly when both report dates convert) and leaves the
      report and the temporary files as they were. */
  lemma TreatQuiet(entries: map<string, Json>, payload: Option<Payload>, files: set<string>,
                   token: Json, fate: Fate,
                   fileTypes: set<string>, resolve: string -> string)
    requires !Renders(payload, fate, fileTypes, resolve)
    ensures var t := Treat(entries, payload, files, token, fate, fileTypes, resolve);
      && t.entries == entries && t.files == files
      && (payload.None? ==> t.events == [])
      && (payload.Some? ==> t.events == [FetchRequest(token, payload.value)])
  {
    if payload.Some? {
      TreatStops(entries, payload, files, token, fate, fileTypes, resolve);
    }
  }

  /** Once rendered, the calls are the activity request, the render of the
      table to `./temp/<code>.xlsx`, then those of `Published` on the
      directory holding that file. */
  lemma TreatRendered(entries: map<string, Json>, payload: Option<Payload>, files: set<string>,
                      token: Json, fate: Fate,
                      fileTypes: set<string>, resolve: string -> string)
    requires Renders(payload, fate, fileTypes, resolve)
    ensures var t := Treat(entries, payload, files, token, fate, fileTypes, resolve);
      var p := Published(entries, files + {TempPath(entries)}, token, fate);
      && |t.events| == 2 + |p.events|
      && t.events[0] == FetchRequest(token, payload.value)
      && t.events[1] == Render(TempPath(entries), BuildTable(FetchedRecords(fate).value, fileTypes, resolve).value)
      && (forall i :: 2 <= i < |t.events| ==> t.events[i] == p.events[i - 2])
      && t.entries == p.entries && t.files == p.files
  {
    TreatRenders(entries, payload, files, token, fate, fileTypes, resolve);
  }

  /** The calls of one `treat_report` are a prefix of fetch, render, upload,
      notify, remove: each comes at most once, none before the one it
      follows, and none is made unless all the earlier ones were. */
  lemma TreatOrder(entries: map<string, Json>, payload: Option<Payload>, files: set<string>,
                   token: Json, fate: Fate,
                   fileTypes: set<string>, resolve: string -> string)
    ensures var t := Treat(entries, payload, files, token, fate, fileTypes, resolve);
      && |t.events| <= 5
      && forall i :: 0 <= i < |t.events| ==> Stage(t.events[i]) == i + 1
  {
    var t := Treat(entries, payload, files, token, fate, fileTypes, resolve);
    if Renders(payload, fate, fileTypes, resolve) {
      var p := Published(entries, files + {TempPath(entries)}, token, fate);
      TreatRenders(entries, payload, files, token, fate, fileTypes, resolve);
      PublishedOrder(entries, files + {TempPath(entries)}, token, fate);
      StagesAfter(FetchRequest(token, payload.value),
                  Render(TempPath(entries), BuildTable(FetchedRecords(fate).value, fileTypes, resolve).value),
                  p.events);
    } else {
      TreatQuiet(entries, payload, files, token, fate, fileTypes, resolve);
    }
  }

  /** The render happens, as the second call, exactly when the activity
      request brought records back and every record became a row. */
  lemma TreatRender(entries: map<string, Json>, payload: Option<Payload>, files: set<string>,
                    token: Json, fate: Fate,
                    fileTypes: set<string>, resolve: string -> string)
    ensures var t := Treat(entries, payload, files, token, fate, fileTypes, resolve);
      && (|t.events| >= 1 <==> payload.Some?)
      && (|t.events| >= 2 <==> Renders(payload, fate, fileTypes, resolve))
  {
    if Renders(payload, fate, fileTypes, resolve) {
      TreatRendered(entries, payload, files, token, fate, fileTypes, resolve);
    } else {
      TreatQuiet(entries, payload, files, token, fate, fileTypes, resolve);
    }
  }

  /** With the table rendered the spreadsheet `<code>.xlsx` is uploaded;
      when the upload returned, the report's "filename" and "filelink" are
      the stored object's name and URL, and the service is notified at
      `/<id>` with the same token and those two values. */
  lemma TreatUpload(entries: map<string, Json>, payload: Option<Payload>, files: set<string>,
                    token: Json, fate: Fate,
                    fileTypes: set<string>, resolve: string -> string)
    requires Renders(payload, fate, fileTypes, resolve)
    ensures var t := Treat(entries, payload, files, token, fate, fileTypes, resolve);
      && t.events[2] == UploadRequest(OutputFile(entries))
      && (|t.events| >= 4 <==> fate.upload.Uploaded?)
      && (fate.upload.UploadRaised? ==> t.entries == entries)
      && (fate.upload.Uploaded? ==>
            && t.events[3] == DeliverRequest(token, "/" + Str(Lookup(entries, "id")),
                                             fate.upload.objectName, fate.upload.objectUrl)
            && t.entries == entries["filename" := fate.upload.objectName]["filelink" := fate.upload.objectUrl])
  {
    TreatRendered(entries, payload, files, token, fate, fileTypes, resolve);
    PublishedCalls(entries, files + {TempPath(entries)}, token, fate);
  }

  /** `treat_report` changes no entry of the report but "filename" and
      "filelink", and removes none. */
  lemma TreatKeepsEntries(entries: map<string, Json>, payload: Option<Payload>, files: set<string>,
                          token: Json, fate: Fate,
                          fileTypes: set<string>, resolve: string -> string)
    ensures var t := Treat(entries, payload, files, token, fate, fileTypes, resolve);
      && entries.Keys <= t.entries.Keys
      && t.entries.Keys <= entries.Keys + {"filename", "filelink"}
      && forall k :: k in entries && k != "filename" && k != "filelink" ==> t.entries[k] == entries[k]
  {
    var t := Treat(entries, payload, files, token, fate, fileTypes, resolve);
    if Renders(payload, fate, fileTypes, resolve) {
      TreatRendered(entries, payload, files, token, fate, fileTypes, resolve);
      PublishedCalls(entries, files + {TempPath(entries)}, token, fate);
      assert t.entries == entries || t.entries == entries["filename" := fate.upload.objectName]["filelink" := fate.upload.objectUrl];
    } else {
      TreatQuiet(entries, payload, files, token, fate, fileTypes, resolve);
    }
  }

  /** The temporary file is removed, as the last call, exactly when the
      notification was answered with status 200 and a JSON object; every
      other failure after the render leaves it behind. No other file under
      `./temp/` is touched. */
  lemma TreatCleanup(entries: map<string, Json>, payload: Option<Payload>, files: set<string>,
                     token: Json, fate: Fate,
                     fileTypes: set<string>, resolve: string -> string)
    ensures var t := Treat(entries, payload, files, token, fate, fileTypes, resolve);
      var delivered := && Renders(payload, fate, fileTypes, resolve) && fate.upload.Uploaded?
                       && fate.deliver.Responded? && fate.deliver.status == 200 && fate.deliver.body.Object?;
      && (|t.events| == 5 <==> delivered)
      && (delivered ==> t.events[4] == Remove(TempPath(entries)) && TempPath(entries) !in t.files)
      && (Renders(payload, fate, fileTypes, resolve) && !delivered ==> TempPath(entries) in t.files)
      && t.files - {TempPath(entries)} == files - {TempPath(entries)}
  {
    if Renders(payload, fate, fileTypes, resolve) {
      TreatRendered(entries, payload, files, token, fate, fileTypes, resolve);
      PublishedCalls(entries, files + {TempPath(entries)}, token, fate);
    } else {
      TreatQuiet(entries, payload, files, token, fate, fileTypes, resolve);
    }
  }

  /** Every request `treat_report` makes to the service carries the token it
      was given. */
  lemma TreatToken(entries: map<string, Json>, payload: Option<Payload>, files: set<string>,
                   token: Json, fate: Fate,
                   fileTypes: set<string>, resolve: string -> string)
    ensures var t := Treat(entries, payload, files, token, fate, fileTypes, resolve);
      forall e :: e in t.events && (e.FetchRequest? || e.DeliverRequest?) ==> e.token == token
  {
    var t := Treat(entries, payload, files, token, fate, fileTypes, resolve);
    TreatOrder(entries, payload, files, token, fate, fileTypes, resolve);
    if Renders(payload, fate, fileTypes, resolve) {
      TreatRendered(entries, payload, files, token, fate, fileTypes, resolve);
      PublishedCalls(entries, files + {TempPath(entries)}, token, fate);
    } else {
      TreatQuiet(entries, payload, files, token, fate, fileTypes, resolve);
    }
    forall e | e in t.events && (e.FetchRequest? || e.DeliverRequest?)
      ensures e.token == token
    {
      var i :| 0 <= i < |t.events| && t.events[i] == e;
      assert Stage(e) == i + 1;
    }
  }

  /** Concatenation of traces associates. */
  lemma AppendAssociates(a: seq<Event>, b: seq<Event>, c: seq<Event>)
    ensures a + b + c == a + (b + c)
  {
  }

  /** `Treat` unfolded by one step: the activity request, then `Fetched`. */
  lemma TreatFetches(entries: map<string, Json>, payload: Option<Payload>, files: set<string>,
                     token: Json, fate: Fate,
                     fileTypes: set<string>, resolve: string -> string)
    requires payload.Some?
    ensures Treat(entries, payload, files, token, fate, fileTypes, resolve) ==
      After([FetchRequest(token, payload.value)], Fetched(entries, files, token, fate, fileTypes, resolve))
  {
  }

  // ---------------------------------------------------------------------------
  // `treat_report` on the world

  /** `treat_report`. It has no error result: every exception on its way is
      caught and ends the call. */
  method TreatReport(world: World, report: Report, token: Json, fate: Fate,
                     fileTypes: set<string>, resolve: string -> string)
    modifies world, report
    ensures var t := Treat(old(report.entries), ActivityPayload(old(report.entries)), old(world.files),
                           token, fate, fileTypes, resolve);
      world.trace == old(world.trace) + t.events && report.entries == t.entries && world.files == t.files
  {
    ghost var entries, files, trace := report.entries, world.files, world.trace;
    // core_get_activity_data converts both dates before its request; when
    // that raises, it returns None and `.get` raises in turn
    var payload := ActivityPayload(report.entries);
    if payload.None? {
      return;
    }
    var fetch := FetchRequest(token, payload.value);
    world.trace := world.trace + [fetch];
    var envelope := CoreActivityData(report.entries, fate.fetch);
    ProcessActivityData(world, report, token, fate, envelope, fileTypes, resolve);
    TreatFetches(entries, payload, files, token, fate, fileTypes, resolve);
    ghost var rest := Fetched(entries, files, token, fate, fileTypes, resolve);
    assert world.trace == trace + [fetch] + rest.events;
    AppendAssociates(trace, [fetch], rest.events);
  }

  /** The part of `treat_report` after the activity request: check what came
      back, build the table and write the file, then publish it. */
  method ProcessActivityData(world: World, report: Report, token: Json, fate: Fate,
                             envelope: Option<Envelope<seq<Record>>>,
                             fileTypes: set<string>, resolve: string -> string)
    requires envelope == Core(Post, fate.fetch)
    modifies world, report
    ensures var t := Fetched(old(report.entries), old(world.files), token, fate, fileTypes, resolve);
      world.trace == old(world.trace) + t.events && report.entries == t.entries && world.files == t.files
  {
    if envelope.None? {
      return;  // `.get("success")` on None raises
    }
    CoreEnvelope(Post, fate.fetch);
    assert envelope.value.success;  // the test on the envelope always passes
    var data := envelope.value.data;
    if data.None? {
      return;  // `len(None)` raises
    }
    if |data.value| == 0 {
      return;
    }
    BuildAndPublish(world, report, token, fate, data.value, fileTypes, resolve);
  }

  /** The table step of `treat_report`: build the table from the records,
      write it to the temporary file, then publish it. */
  method BuildAndPublish(world: World, report: Report, token: Json, fate: Fate,
                         records: seq<Record>, fileTypes: set<string>, resolve: string -> string)
    modifies world, report
    ensures var t := Built(old(report.entries), old(world.files), token, fate, records, fileTypes, resolve);
      world.trace == old(world.trace) + t.events && report.entries == t.entries && world.files == t.files
  {
    var rendered := GenerateActivityReport(records, fileTypes, resolve, OutputFile(report.entries));
    if rendered.Failure? {
      return;  // an exception while building the table
    }
    ghost var entries, trace := report.entries, world.trace;
    var render := Render(rendered.value.path, rendered.value.table);
    world.trace := world.trace + [render];
    world.files := world.files + {rendered.value.path};
    ghost var rest := Published(entries, world.files, token, fate);
    Publish(world, report, token, fate);
    AppendAssociates(trace, [render], rest.events);
  }

  /** The part of `treat_report` after the render: upload the file, record
      the stored object in the report, notify the service, and remove the
      file once the notification came back. */
  method Publish(world: World, report: Report, token: Json, fate: Fate)
    modifies world, report
    ensures var t := Published(old(report.entries), old(world.files), token, fate);
      world.trace == old(world.trace) + t.events && report.entries == t.entries && world.files == t.files
  {
    var path := TempPath(report.entries);
    var upload := UploadRequest(OutputFile(report.entries));
    world.trace := world.trace + [upload];
    if fate.upload.UploadRaised? {
      return;  // `upload_file` raised, or its result has no `.get`
    }
    report.entries := report.entries["filename" := fate.upload.objectName];
    report.entries := report.entries["filelink" := fate.upload.objectUrl];
    var deliver := DeliverRequest(token, DeliverEndpoint(report.entries),
                                  fate.upload.objectName, fate.upload.objectUrl);
    world.trace := world.trace + [deliver];
    var delivered := CoreDeliver(fate.deliver);
    if delivered.None? {
      return;  // `.get("success")` on None raises, so the removal is skipped
    }
    // success is always true here; both branches only print
    world.trace := world.trace + [Remove(path)];
    world.files := world.files - {path};
  }
}
