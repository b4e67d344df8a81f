/** One iteration of the `while True` loop of main.py: sign in, take the
    token, list the reports not yet delivered, and hand each of them to
    `treat_report` in turn. The loop body has no exception guard, so an
    exception raised here ends the worker. */
module Poll {
  import opened Common
  import opened ReportTable
  import opened Upstream
  import opened Delivery

  /** How one iteration ends. */
  datatype CycleEnd =
    | Crashed(error: PyError)  // an exception escaped the loop body
    | Rejected                 // the listing said `success: False`; an error is logged
    | Idle                     // the listing was empty; the worker waits
    | Processed(count: nat)    // `treat_report` ran on `count` reports

  /** `jwt_token`: None (`JNull`) unless the login envelope says success, and
      then `r_core_login.get("data").get("jwt")`. Calling `.get` on a None
      envelope, on missing data or on data that is not a dictionary raises
      AttributeError. */
  function Token(login: Option<Envelope<Session>>): Result<Json>
  {
    match login
    case None => Failure(AttributeError)
    case Some(envelope) =>
      if !envelope.success then Success(JNull)
      else match envelope.data
        case Some(SessionObject(jwt)) => Success(jwt)
        case _ => Failure(AttributeError)
  }

  /** The calls made and the files left by `treat_report` run on each of
      `reports` in order, the i-th meeting the outside world's answers
      `fates(i)`. */
  datatype Batch = Batch(events: seq<Event>, files: set<string>)

  function TreatAll(reports: seq<map<string, Json>>, files: set<string>, token: Json,
                    fates: nat -> Fate, fileTypes: set<string>, resolve: string -> string): Batch
    decreases |reports|
  {
    if reports == [] then Batch([], files)
    else
      var n := |reports| - 1;
      var before := TreatAll(reports[..n], files, token, fates, fileTypes, resolve);
      var t := Treat(reports[n], ActivityPayload(reports[n]), before.files, token, fates(n), fileTypes, resolve);
      Batch(before.events + t.events, t.files)
  }

  /** The outcome of one iteration. */
  datatype Round = Round(end: CycleEnd, events: seq<Event>, files: set<string>)

  /** One iteration of the loop, with `login` and `listing` the exchanges of
      the sign-in and listing requests. */
  function Cycle(files: set<string>, login: Exchange<Session>, listing: Exchange<seq<map<string, Json>>>,
                 fates: nat -> Fate, fileTypes: set<string>, resolve: string -> string): Round
  {
    match Token(CoreLogin(login))
    case Failure(e) => Round(Crashed(e), [LoginRequest], files)
    case Success(token) => Listed(files, token, listing, fates, fileTypes, resolve)
  }

  /** The iteration once the token is known: the listing, then every
      listed report. */
  function Listed(files: set<string>, token: Json, listing: Exchange<seq<map<string, Json>>>,
                  fates: nat -> Fate, fileTypes: set<string>, resolve: string -> string): Round
  {
    var calls := [LoginRequest, ListRequest(token)];
    var listed := CoreListReports(listing);
    match ListingStop(listed)
    case Some(end) => Round(end, calls, files)
    case None =>
      var reports := listed.value.data.value;
      var b := TreatAll(reports, files, token, fates, fileTypes, resolve);
      Round(Processed(|reports|), calls + b.events, b.files)
  }

  /** `Listed` when the listing ends the iteration. */
  lemma ListedStops(files: set<string>, token: Json, listing: Exchange<seq<map<string, Json>>>,
                    fates: nat -> Fate, fileTypes: set<string>, resolve: string -> string)
    requires ListingStop(CoreListReports(listing)).Some?
    ensures Listed(files, token, listing, fates, fileTypes, resolve)
      == Round(ListingStop(CoreListReports(listing)).value, [LoginRequest, ListRequest(token)], files)
  {
  }

  /** `Listed` when there are reports to treat. */
  lemma ListedTreats(files: set<string>, token: Json, listing: Exchange<seq<map<string, Json>>>,
                     fates: nat -> Fate, fileTypes: set<string>, resolve: string -> string)
    requires ListingStop(CoreListReports(listing)).None?
    ensures var reports := CoreListReports(listing).value.data.value;
      var b := TreatAll(reports, files, token, fates, fileTypes, resolve);
      Listed(files, token, listing, fates, fileTypes, resolve)
        == Round(Processed(|reports|), [LoginRequest, ListRequest(token)] + b.events, b.files)
  {
  }

  /** How the answer to the listing ends the iteration before any report is
      treated; None when there are reports to treat. */
  function ListingStop(listed: Option<Envelope<seq<map<string, Json>>>>): (r: Option<CycleEnd>)
    ensures r.None? <==>
      listed.Some? && listed.value.success && listed.value.data.Some? && |listed.value.data.value| > 0
  {
    match listed
    case None => Some(Crashed(AttributeError))  // `.get` on None
    case Some(envelope) =>
      if !envelope.success then Some(Rejected)
      else match envelope.data
        case None => Some(Crashed(TypeError))  // `len(None)`
        case Some(reports) => if |reports| == 0 then Some(Idle) else None
  }

  // ---------------------------------------------------------------------------
  // Properties

  /** The payloads of the activity requests in `events`, in order. */
  function Fetches(events: seq<Event>): seq<Payload>
    decreases |events|
  {
    if events == [] then []
    else
      var n := |events| - 1;
      Fetches(events[..n]) + (if events[n].FetchRequest? then [events[n].payload] else [])
  }

  /** The payloads of those reports whose two dates convert, in order. */
  function Payloads(reports: seq<map<string, Json>>): seq<Payload>
    decreases |reports|
  {
    if reports == [] then []
    else
      var n := |reports| - 1;
      Payloads(reports[..n]) + (if ActivityPayload(reports[n]).Some? then [ActivityPayload(reports[n]).value] else [])
  }

  lemma {:induction false} FetchesAppend(a: seq<Event>, b: seq<Event>)
    ensures Fetches(a + b) == Fetches(a) + Fetches(b)
    decreases |b|
  {
    if b == [] {
      assert a + b == a;
    } else {
      var n := |b| - 1;
      assert (a + b)[..|a + b| - 1] == a + b[..n];
      assert (a + b)[|a + b| - 1] == b[n];
      FetchesAppend(a, b[..n]);
    }
  }

  /** A trace whose calls follow the order of `treat_report` holds at most
      one activity request, its first call. */
  lemma {:induction false} FetchesInOrder(s: seq<Event>)
    requires forall i :: 0 <= i < |s| ==> Stage(s[i]) == i + 1
    ensures s == [] ==> Fetches(s) == []
    ensures s != [] ==> s[0].FetchRequest? && Fetches(s) == [s[0].payload]
    decreases |s|
  {
    if s != [] {
      var n := |s| - 1;
      assert Stage(s[n]) == n + 1;
      FetchesInOrder(s[..n]);
    }
  }

  /** `treat_report` makes exactly one activity request, with the report's
      payload, when both its dates convert, and none otherwise. */
  lemma FetchesOfTreat(entries: map<string, Json>, payload: Option<Payload>, files: set<string>,
                       token: Json, fate: Fate, fileTypes: set<string>, resolve: string -> string)
    ensures Fetches(Treat(entries, payload, files, token, fate, fileTypes, resolve).events) ==
      if payload.Some? then [payload.value] else []
  {
    TreatOrder(entries, payload, files, token, fate, fileTypes, resolve);
    FetchesInOrder(Treat(entries, payload, files, token, fate, fileTypes, resolve).events);
    if Renders(payload, fate, fileTypes, resolve) {
      TreatRendered(entries, payload, files, token, fate, fileTypes, resolve);
    } else {
      TreatQuiet(entries, payload, files, token, fate, fileTypes, resolve);
    }
  }

  /** Every report of the list is processed once, in list order, whatever
      happened to the reports before it: the activity requests of the batch
      are exactly those of the reports whose dates convert. */
  lemma {:induction false} TreatAllFetches(reports: seq<map<string, Json>>, files: set<string>, token: Json,
                                           fates: nat -> Fate, fileTypes: set<string>, resolve: string -> string)
    ensures Fetches(TreatAll(reports, files, token, fates, fileTypes, resolve).events) == Payloads(reports)
    decreases |reports|
  {
    if reports != [] {
      var n := |reports| - 1;
      var before := TreatAll(reports[..n], files, token, fates, fileTypes, resolve);
      var t := Treat(reports[n], ActivityPayload(reports[n]), before.files, token, fates(n), fileTypes, resolve);
      TreatAllFetches(reports[..n], files, token, fates, fileTypes, resolve);
      FetchesAppend(before.events, t.events);
      FetchesOfTreat(reports[n], ActivityPayload(reports[n]), before.files, token, fates(n), fileTypes, resolve);
    }
  }

  /** The batch holds only calls of `treat_report`, and every report is
      treated with the same token. */
  lemma {:induction false} TreatAllToken(reports: seq<map<string, Json>>, files: set<string>, token: Json,
                                         fates: nat -> Fate, fileTypes: set<string>, resolve: string -> string)
    ensures forall e :: e in TreatAll(reports, files, token, fates, fileTypes, resolve).events ==>
      && Stage(e) >= 1
      && ((e.FetchRequest? || e.DeliverRequest?) ==> e.token == token)
    decreases |reports|
  {
    if reports != [] {
      var n := |reports| - 1;
      var before := TreatAll(reports[..n], files, token, fates, fileTypes, resolve);
      var t := Treat(reports[n], ActivityPayload(reports[n]), before.files, token, fates(n), fileTypes, resolve);
      TreatAllToken(reports[..n], files, token, fates, fileTypes, resolve);
      TreatToken(reports[n], ActivityPayload(reports[n]), before.files, token, fates(n), fileTypes, resolve);
      TreatOrder(reports[n], ActivityPayload(reports[n]), before.files, token, fates(n), fileTypes, resolve);
      forall e | e in t.events
        ensures Stage(e) >= 1
      {
        var i :| 0 <= i < |t.events| && t.events[i] == e;
      }
    }
  }

  /** `jwt_token` is the "jwt" of the login data exactly when the sign-in
      was answered with status 201 and an object whose data is a
      dictionary; every other outcome raises AttributeError. The initial
      `jwt_token = None` never reaches the listing, since no envelope says
      `success: False`; the token is the data's `jwt` entry, itself None
      (`JNull`) when that entry is missing or null. */
  lemma LoginToken(login: Exchange<Session>)
    ensures Token(CoreLogin(login)).Success? <==>
      && login.Responded? && login.status == 201 && login.body.Object?
      && login.body.data.Some? && login.body.data.value.SessionObject?
    ensures Token(CoreLogin(login)).Success? ==> Token(CoreLogin(login)).value == login.body.data.value.jwt
    ensures Token(CoreLogin(login)).Failure? ==> Token(CoreLogin(login)).error == AttributeError
  {
    CoreEnvelope(Post, login);
  }

  /** The iteration crashes, with AttributeError, when the sign-in or the
      listing returned None, which is how every failure of either ends; the
      listing is never made after a failed sign-in. The `else` branch that
      logs a rejected listing is never taken. */
  lemma CycleCrashes(files: set<string>, login: Exchange<Session>, listing: Exchange<seq<map<string, Json>>>,
                     fates: nat -> Fate, fileTypes: set<string>, resolve: string -> string)
    ensures var c := Cycle(files, login, listing, fates, fileTypes, resolve);
      && (CoreLogin(login).None? ==> c == Round(Crashed(AttributeError), [LoginRequest], files))
      && (Token(CoreLogin(login)).Success? && CoreListReports(listing).None? ==>
            c == Round(Crashed(AttributeError), [LoginRequest, ListRequest(Token(CoreLogin(login)).value)], files))
      && c.end != Rejected
  {
    CoreEnvelope(Get, listing);
  }

  /** An empty listing makes the iteration go straight to the wait: no
      report is processed and no file is touched. */
  lemma CycleIdle(files: set<string>, login: Exchange<Session>, listing: Exchange<seq<map<string, Json>>>,
                  fates: nat -> Fate, fileTypes: set<string>, resolve: string -> string)
    ensures var c := Cycle(files, login, listing, fates, fileTypes, resolve);
      c.end == Idle <==>
        Token(CoreLogin(login)).Success? && CoreListReports(listing) == Some(Envelope(true, Some([])))
    ensures var c := Cycle(files, login, listing, fates, fileTypes, resolve);
      c.end == Idle ==> c.events == [LoginRequest, ListRequest(Token(CoreLogin(login)).value)] && c.files == files
  {
    CoreEnvelope(Get, listing);
  }

  /** With a non-empty listing every report is handed to `treat_report`
      once, in list order and with the same token: after the sign-in and the
      listing, the activity requests are those of the reports whose dates
      convert, and every request carries the token. */
  lemma CycleProcesses(files: set<string>, login: Exchange<Session>, listing: Exchange<seq<map<string, Json>>>,
                       fates: nat -> Fate, fileTypes: set<string>, resolve: string -> string)
    ensures var c := Cycle(files, login, listing, fates, fileTypes, resolve);
      c.end.Processed? <==>
        && Token(CoreLogin(login)).Success? && CoreListReports(listing).Some?
        && CoreListReports(listing).value.data.Some? && |CoreListReports(listing).value.data.value| > 0
    ensures var c := Cycle(files, login, listing, fates, fileTypes, resolve);
      c.end.Processed? ==>
        var token := Token(CoreLogin(login)).value;
        var reports := CoreListReports(listing).value.data.value;
        && c.end.count == |reports|
        && c.events[..2] == [LoginRequest, ListRequest(token)]
        && Fetches(c.events) == Payloads(reports)
        && forall e :: e in c.events && (e.ListRequest? || e.FetchRequest? || e.DeliverRequest?) ==> e.token == token
  {
    CoreEnvelope(Get, listing);
    var c := Cycle(files, login, listing, fates, fileTypes, resolve);
    if c.end.Processed? {
      var token := Token(CoreLogin(login)).value;
      var reports := CoreListReports(listing).value.data.value;
      var b := TreatAll(reports, files, token, fates, fileTypes, resolve);
      var calls := [LoginRequest, ListRequest(token)];
      assert c.events == calls + b.events;
      TreatAllFetches(reports, files, token, fates, fileTypes, resolve);
      TreatAllToken(reports, files, token, fates, fileTypes, resolve);
      FetchesAppend(calls, b.events);
      assert Fetches(calls) == [] by {
        assert calls[..1] == [LoginRequest];
        assert calls[..1][..0] == [];
      }
    }
  }

  // ---------------------------------------------------------------------------
  // The loop body on the world

  /** The body of the `while True` loop, up to the wait. */
  method RunCycle(world: World, login: Exchange<Session>, listing: Exchange<seq<map<string, Json>>>,
                  fates: nat -> Fate, fileTypes: set<string>, resolve: string -> string)
    returns (end: CycleEnd)
    modifies world
    ensures var c := Cycle(old(world.files), login, listing, fates, fileTypes, resolve);
      end == c.end && world.trace == old(world.trace) + c.events && world.files == c.files
  {
    world.trace := world.trace + [LoginRequest];
    var token := Token(CoreLogin(login));
    if token.Failure? {
      return Crashed(token.error);
    }
    end := ListAndTreat(world, old(world.trace), token.value, listing, fates, fileTypes, resolve);
  }

  /** The iteration once the token is known: list the reports and treat
      each of them. `before` is the trace ahead of the sign-in. */
  method ListAndTreat(world: World, ghost before: seq<Event>, token: Json,
                      listing: Exchange<seq<map<string, Json>>>,
                      fates: nat -> Fate, fileTypes: set<string>, resolve: string -> string)
    returns (end: CycleEnd)
    requires world.trace == before + [LoginRequest]
    modifies world
    ensures var c := Listed(old(world.files), token, listing, fates, fileTypes, resolve);
      end == c.end && world.trace == before + c.events && world.files == c.files
  {
    world.trace := world.trace + [ListRequest(token)];
    var listed := CoreListReports(listing);
    var stop := ListingStop(listed);
    if stop.Some? {
      ListedStops(old(world.files), token, listing, fates, fileTypes, resolve);
      return stop.value;
    }
    var reports := listed.value.data.value;
    ListedTreats(old(world.files), token, listing, fates, fileTypes, resolve);
    end := TreatListed(world, before, token, reports, fates, fileTypes, resolve);
  }

  /** A non-empty listing: treat every report, after the sign-in and the
      listing already in the trace. */
  method TreatListed(world: World, ghost before: seq<Event>, token: Json, reports: seq<map<string, Json>>,
                     fates: nat -> Fate, fileTypes: set<string>, resolve: string -> string)
    returns (end: CycleEnd)
    requires world.trace == before + [LoginRequest, ListRequest(token)]
    modifies world
    ensures var b := TreatAll(reports, old(world.files), token, fates, fileTypes, resolve);
      end == Processed(|reports|)
      && world.trace == before + [LoginRequest, ListRequest(token)] + b.events && world.files == b.files
  {
    ghost var b := TreatAll(reports, old(world.files), token, fates, fileTypes, resolve);
    TreatEach(world, reports, token, fates, fileTypes, resolve);
    end := Processed(|reports|);
  }

  /** `for report in reports: treat_report(env_vars, jwt_token, report)`. */
  method TreatEach(world: World, reports: seq<map<string, Json>>, token: Json,
                   fates: nat -> Fate, fileTypes: set<string>, resolve: string -> string)
    modifies world
    ensures var b := TreatAll(reports, old(world.files), token, fates, fileTypes, resolve);
      world.trace == old(world.trace) + b.events && world.files == b.files
  {
    for i := 0 to |reports|
      invariant var b := TreatAll(reports[..i], old(world.files), token, fates, fileTypes, resolve);
        world.trace == old(world.trace) + b.events && world.files == b.files
    {
      ghost var b := TreatAll(reports[..i], old(world.files), token, fates, fileTypes, resolve);
      var report := new Report(reports[i]);
      TreatReport(world, report, token, fates(i), fileTypes, resolve);
      ghost var t := Treat(reports[i], ActivityPayload(reports[i]), b.files, token, fates(i), fileTypes, resolve);
      AppendAssociates(old(world.trace), b.events, t.events);
      assert reports[..i + 1][..i] == reports[..i];
    }
    assert reports[..|reports|] == reports;
  }
}
