/** The shortcode lifecycle: the create, resolve and stats handlers over the
    record store, first as functions of the store and the request, then as
    the imperative store class whose methods carry them out in place.

    The clock is the parameter `now` (milliseconds).  The foreign libraries
    are parameters too: `isUri` is the URL syntax check, `lookup` gives the
    country for an address (None when the address is unknown), and
    `generate(k)` is what the shortcode generator returns on its (k+1)-th call. */
module Shortener {
  import opened Js
  import opened Shortcode
  import opened UrlModel

  const DefaultMinutes := 30
  const MillisPerMinute := 60000
  const MaxAttempts := 5

  const InvalidUrlMessage := "Invalid URL. Provide a valid http/https URL."
  const InvalidShortcodeMessage :=
    "Invalid shortcode. Must be alphanumeric (dash/underscore allowed), length 4\U{2013}32."

  // ---------------------------------------------------------------------
  // Expiry arithmetic
  // ---------------------------------------------------------------------

  /** The `validity` of a request body as the handler sees it.  `Unset` is
      any falsy value (absent, null, false, the empty string); `Num(x)` is a
      JSON number (falsy exactly when it is 0); `Coerced(x)` is a truthy
      non-number whose `Number()` is `x` (a numeric string such as "0" or
      "15", or `true`); `NonNumeric` is a truthy value whose `Number()` is NaN. */
  datatype Validity = Unset | Num(x: real) | Coerced(x: real) | NonNumeric

  predicate IsTruthy(v: Validity) {
    match v
    case Unset => false
    case Num(x) => x != 0.0
    case Coerced(_) => true
    case NonNumeric => true
  }

  /** `Number(v) || 0`: NaN and every falsy value become 0. */
  function NumberOrZero(v: Validity): real {
    match v
    case Unset => 0.0
    case Num(x) => x
    case Coerced(x) => x
    case NonNumeric => 0.0
  }

  /** `Math.max(1, Math.floor(Number(minutes) || 0))`. */
  function ExpiryMinutes(minutes: Validity): (m: int)
    ensures m >= 1
    ensures NumberOrZero(minutes) >= 1.0 ==> m as real <= NumberOrZero(minutes) < m as real + 1.0
    ensures NumberOrZero(minutes) < 2.0 ==> m == 1
    ensures minutes.Unset? || minutes.NonNumeric? ==> m == 1
  {
    var f := NumberOrZero(minutes).Floor;
    if f < 1 then 1 else f
  }

  /** `computeExpireAt(minutes)` at time `now`: a whole, positive number of
      minutes from now. */
  function ComputeExpireAt(now: int, minutes: Validity): (t: int)
    ensures t >= now + MillisPerMinute
    ensures (t - now) % MillisPerMinute == 0
  {
    now + ExpiryMinutes(minutes) * MillisPerMinute
  }

  /** `validity || DEFAULT_MINUTES`. */
  function ValidityOrDefault(v: Validity): Validity {
    if IsTruthy(v) then v else Num(DefaultMinutes as real)
  }

  /** The expiry the create handler stores for a request's `validity`:
      30 minutes when it is falsy (absent or 0), one minute when it is not
      numeric, and otherwise its floor, but at least one minute. */
  function RequestExpireAt(now: int, validity: Validity): (t: int)
    ensures t >= now + MillisPerMinute
    ensures !IsTruthy(validity) ==> t == now + DefaultMinutes * MillisPerMinute
    ensures validity.NonNumeric? ==> t == now + MillisPerMinute
    ensures IsTruthy(validity) && (validity.Num? || validity.Coerced?) ==>
      t == now + (if validity.x.Floor < 1 then 1 else validity.x.Floor) * MillisPerMinute
  {
    ComputeExpireAt(now, ValidityOrDefault(validity))
  }

  // ---------------------------------------------------------------------
  // Requests and responses
  // ---------------------------------------------------------------------

  datatype CreateBody = CreateBody(url: Field, validity: Validity, shortcode: Field)

  /** What the resolve handler reads from a request: the `x-forwarded-for`
      header, the socket's remote address and the `referer` header. */
  datatype Visit = Visit(forwardedFor: Option<string>, remoteAddress: string, referer: Option<string>)

  /** A click as the public statistics show it: without the address. */
  datatype PublicClick = PublicClick(timestamp: int, referrer: Option<string>, location: string)

  datatype StatsView = StatsView(
    shortcode: string,
    originalUrl: string,
    createdAt: int,
    expiry: int,
    totalClicks: nat,
    clicks: seq<PublicClick>)

  /** The handlers' outcomes: 201, 400, 409, 500 (an error the save raised),
      404, 410, a redirect, and 200 with the statistics. */
  datatype Response =
    | Created(shortcode: string, expiry: int)
    | BadRequest(error: string)
    | Conflict
    | ServerError(cause: SaveError)
    | NotFound
    | Gone
    | Redirect(url: string)
    | Stats(view: StatsView)

  /** The URL guard of the create handler: a truthy string that `isUri` accepts. */
  predicate UrlAccepted(url: Field, isUri: string -> bool) {
    Truthy(url) && url.Text? && isUri(url.s)
  }

  // ---------------------------------------------------------------------
  // Create
  // ---------------------------------------------------------------------

  /** The candidate the generate-and-check loop settles on, and how many
      times it called the generator. */
  datatype Pick = Pick(code: string, calls: nat)

  /** The do-while loop, entered after `attempts` collisions: draw a
      candidate, stop if it is free, otherwise count the collision and go
      round again while fewer than five have been counted. */
  function PickFrom(store: Store, generate: nat -> string, attempts: nat): Pick
    requires attempts < MaxAttempts
    decreases MaxAttempts - attempts
  {
    var candidate := generate(attempts);
    if candidate !in store then Pick(candidate, attempts + 1)
    else if attempts + 1 < MaxAttempts then PickFrom(store, generate, attempts + 1)
    else Pick(candidate, attempts + 1)
  }

  lemma {:induction false} PickFromIsFirstFree(store: Store, generate: nat -> string, attempts: nat)
    requires attempts < MaxAttempts
    ensures var p := PickFrom(store, generate, attempts);
      && attempts < p.calls <= MaxAttempts
      && p.code == generate(p.calls - 1)
      && (forall k :: attempts <= k < p.calls - 1 ==> generate(k) in store)
      && (p.code !in store || p.calls == MaxAttempts)
    decreases MaxAttempts - attempts
  {
    var candidate := generate(attempts);
    if candidate in store && attempts + 1 < MaxAttempts {
      PickFromIsFirstFree(store, generate, attempts + 1);
    }
  }

  /** The whole loop: at most five calls, stopping at the first candidate
      that is not stored; when all five collide, the fifth is kept anyway. */
  function PickGenerated(store: Store, generate: nat -> string): (p: Pick)
    ensures 1 <= p.calls <= MaxAttempts
    ensures p.code == generate(p.calls - 1)
    ensures forall k :: 0 <= k < p.calls - 1 ==> generate(k) in store
    ensures p.code !in store || p.calls == MaxAttempts
  {
    PickFromIsFirstFree(store, generate, 0);
    PickFrom(store, generate, 0)
  }

  /** The outcome of `save()` for a freshly built record. */
  function Save(store: Store, rec: UrlRecord): (Response, Store) {
    match Insert(store, rec)
    case Saved(s) => (Created(rec.shortcode, rec.expireAt), s)
    case SaveFailed(e) => (ServerError(e), store)
  }

  /** POST /shorturls: check the URL, compute the expiry, then take the
      custom code (refused when invalid, 409 when any record holds it, even an
      expired one) or the generated one, and save a new record. */
  function CreateOutcome(store: Store, body: CreateBody, now: int, isUri: string -> bool,
                         generate: nat -> string): (out: (Response, Store))
    requires StoreInvariant(store)
    ensures StoreInvariant(out.1)
    ensures !out.0.Created? ==> out.1 == store
    ensures out.0.Created? <==>
      && UrlAccepted(body.url, isUri)
      && if Truthy(body.shortcode) then IsValidCustom(body.shortcode) && body.shortcode.s !in store
         else PickGenerated(store, generate).code !in store && PickGenerated(store, generate).code != ""
    ensures out.0 == BadRequest(InvalidUrlMessage) <==> !UrlAccepted(body.url, isUri)
    ensures out.0 == BadRequest(InvalidShortcodeMessage) <==>
      UrlAccepted(body.url, isUri) && Truthy(body.shortcode) && !IsValidCustom(body.shortcode)
    ensures out.0 == Conflict <==>
      UrlAccepted(body.url, isUri) && IsValidCustom(body.shortcode) && body.shortcode.s in store
    ensures out.0 == ServerError(DuplicateKey) <==>
      UrlAccepted(body.url, isUri) && !Truthy(body.shortcode) && PickGenerated(store, generate).code in store
    ensures out.0 == ServerError(RequiredMissing) <==>
      UrlAccepted(body.url, isUri) && !Truthy(body.shortcode) && PickGenerated(store, generate).code == ""
    ensures out.0.Created? ==>
      && out.0.shortcode == (if Truthy(body.shortcode) then body.shortcode.s else PickGenerated(store, generate).code)
      && out.0.shortcode !in store
      && out.0.expiry == RequestExpireAt(now, body.validity)
      && out.1.Keys == store.Keys + {out.0.shortcode}
      && (forall c :: c in store ==> out.1[c] == store[c])
      && var rec := out.1[out.0.shortcode];
         && rec.shortcode == out.0.shortcode && rec.longUrl == body.url.s
         && rec.createdAt == now && rec.expireAt == out.0.expiry
         && rec.clicks == 0 && rec.clickData == []
  {
    if !UrlAccepted(body.url, isUri) then (BadRequest(InvalidUrlMessage), store)
    else
      var expireAt := RequestExpireAt(now, body.validity);
      if Truthy(body.shortcode) then
        if !IsValidCustom(body.shortcode) then (BadRequest(InvalidShortcodeMessage), store)
        else if body.shortcode.s in store then (Conflict, store)
        else Save(store, NewRecord(body.shortcode.s, body.url.s, now, expireAt))
      else
        Save(store, NewRecord(PickGenerated(store, generate).code, body.url.s, now, expireAt))
  }

  // ---------------------------------------------------------------------
  // Resolve
  // ---------------------------------------------------------------------

  /** `x-forwarded-for || socket.remoteAddress`. */
  function ClientIp(visit: Visit): string {
    if visit.forwardedFor.Some? && visit.forwardedFor.value != "" then visit.forwardedFor.value
    else visit.remoteAddress
  }

  /** `req.get('referer') || null`. */
  function Referrer(visit: Visit): Option<string> {
    if visit.referer.Some? && visit.referer.value != "" then visit.referer else None
  }

  /** The click event a visit records: the time, the referrer or null, the
      address, and its country or "Unknown". */
  function ClickOf(now: int, visit: Visit, lookup: string -> Option<string>): (c: Click)
    ensures c.timestamp == now
    ensures visit.forwardedFor.Some? && visit.forwardedFor.value != "" ==> c.ip == visit.forwardedFor.value
    ensures visit.forwardedFor == None || visit.forwardedFor == Some("") ==> c.ip == visit.remoteAddress
    ensures c.referrer.Some? ==> c.referrer == visit.referer && c.referrer.value != ""
    ensures c.referrer == None <==> visit.referer == None || visit.referer == Some("")
    ensures lookup(c.ip).Some? ==> c.location == lookup(c.ip).value
    ensures lookup(c.ip).None? ==> c.location == "Unknown"
  {
    var ip := ClientIp(visit);
    var location := match lookup(ip) case Some(country) => country case None => "Unknown";
    Click(now, Referrer(visit), ip, location)
  }

  /** GET /:shortcode: 404 for an unknown code, 410 from its `expireAt` on,
      and otherwise one more click recorded and a redirect to the target. */
  function ResolveOutcome(store: Store, code: string, now: int, visit: Visit,
                          lookup: string -> Option<string>): (out: (Response, Store))
    requires StoreInvariant(store)
    ensures StoreInvariant(out.1)
    ensures out.0 == NotFound <==> code !in store
    ensures out.0 == Gone <==> code in store && Expired(store[code], now)
    ensures out.0.Redirect? <==> code in store && !Expired(store[code], now)
    ensures !out.0.Redirect? ==> out.1 == store
    ensures out.0.Redirect? ==>
      && out.0.url == store[code].longUrl
      && out.1.Keys == store.Keys
      && (forall c :: c in store && c != code ==> out.1[c] == store[c])
      && out.1[code].clicks == store[code].clicks + 1
      && out.1[code].clickData == store[code].clickData + [ClickOf(now, visit, lookup)]
      && out.1[code].shortcode == code
      && out.1[code].longUrl == store[code].longUrl
      && out.1[code].createdAt == store[code].createdAt
      && out.1[code].expireAt == store[code].expireAt
  {
    if code !in store then (NotFound, store)
    else if Expired(store[code], now) then (Gone, store)
    else
      var rec := WithClick(store[code], ClickOf(now, visit, lookup));
      (Redirect(rec.longUrl), store[code := rec])
  }

  // ---------------------------------------------------------------------
  // Stats
  // ---------------------------------------------------------------------

  /** `clickData.map(c => ({timestamp, referrer, location}))`. */
  function PublicClicks(cs: seq<Click>): (r: seq<PublicClick>)
    ensures |r| == |cs|
    ensures forall i :: 0 <= i < |cs| ==>
      r[i] == PublicClick(cs[i].timestamp, cs[i].referrer, cs[i].location)
  {
    if cs == [] then []
    else [PublicClick(cs[0].timestamp, cs[0].referrer, cs[0].location)] + PublicClicks(cs[1..])
  }

  /** GET /shorturls/:shortcode: the same 404 and 410 checks as resolve, and
      otherwise the public view of the record. */
  function StatsOutcome(store: Store, code: string, now: int): (r: Response)
    requires StoreInvariant(store)
    ensures r == NotFound <==> code !in store
    ensures r == Gone <==> code in store && Expired(store[code], now)
    ensures r.Stats? <==> code in store && !Expired(store[code], now)
    ensures r.Stats? ==>
      && r.view.shortcode == code
      && r.view.originalUrl == store[code].longUrl
      && r.view.createdAt == store[code].createdAt
      && r.view.expiry == store[code].expireAt
      && r.view.totalClicks == store[code].clicks == |r.view.clicks|
      && |r.view.clicks| == |store[code].clickData|
      && (forall i :: 0 <= i < |r.view.clicks| ==>
            && r.view.clicks[i].timestamp == store[code].clickData[i].timestamp
            && r.view.clicks[i].referrer == store[code].clickData[i].referrer
            && r.view.clicks[i].location == store[code].clickData[i].location)
  {
    if code !in store then NotFound
    else if Expired(store[code], now) then Gone
    else
      var rec := store[code];
      Stats(StatsView(rec.shortcode, rec.longUrl, rec.createdAt, rec.expireAt, rec.clicks,
                      PublicClicks(rec.clickData)))
  }

  // ---------------------------------------------------------------------
  // Properties across several requests
  // ---------------------------------------------------------------------

  /** A created link redirects to its URL, with one click counted, at every
      moment before its expiry, and is gone from its expiry on; its
      statistics right after creation show no clicks. */
  lemma CreateThenResolve(store: Store, body: CreateBody, now: int, isUri: string -> bool,
                          generate: nat -> string, later: int, visit: Visit,
                          lookup: string -> Option<string>)
    requires StoreInvariant(store)
    requires CreateOutcome(store, body, now, isUri, generate).0.Created?
    ensures var (res, s) := CreateOutcome(store, body, now, isUri, generate);
      && (now <= later < res.expiry ==>
            && ResolveOutcome(s, res.shortcode, later, visit, lookup).0 == Redirect(body.url.s)
            && ResolveOutcome(s, res.shortcode, later, visit, lookup).1[res.shortcode].clicks == 1
            && StatsOutcome(s, res.shortcode, now).Stats?
            && StatsOutcome(s, res.shortcode, now).view.totalClicks == 0)
      && (later >= res.expiry ==>
            && ResolveOutcome(s, res.shortcode, later, visit, lookup) == (Gone, s)
            && StatsOutcome(s, res.shortcode, later) == Gone)
  {
  }

  /** Two creates with the same valid custom code, one after the other:
      exactly one of them succeeds and the other gets 409. */
  lemma SameCustomCodeTwice(store: Store, first: CreateBody, second: CreateBody, now: int, now2: int,
                            isUri: string -> bool, generate: nat -> string)
    requires StoreInvariant(store)
    requires UrlAccepted(first.url, isUri) && UrlAccepted(second.url, isUri)
    requires IsValidCustom(first.shortcode) && second.shortcode == first.shortcode
    requires first.shortcode.s !in store
    ensures var (r1, s1) := CreateOutcome(store, first, now, isUri, generate);
      && r1 == Created(first.shortcode.s, RequestExpireAt(now, first.validity))
      && CreateOutcome(s1, second, now2, isUri, generate) == (Conflict, s1)
  {
  }

  /** The custom-code check does not look at expiry: a code whose record has
      expired but is still stored is refused with 409, although resolving it
      says 410; once the expiry index has removed the record, the same
      request succeeds. */
  lemma ExpiredCustomCodeStillTaken(store: Store, body: CreateBody, now: int, isUri: string -> bool,
                                    generate: nat -> string, visit: Visit,
                                    lookup: string -> Option<string>)
    requires StoreInvariant(store)
    requires UrlAccepted(body.url, isUri) && IsValidCustom(body.shortcode)
    requires body.shortcode.s in store && Expired(store[body.shortcode.s], now)
    ensures CreateOutcome(store, body, now, isUri, generate) == (Conflict, store)
    ensures ResolveOutcome(store, body.shortcode.s, now, visit, lookup).0 == Gone
    ensures CreateOutcome(Reap(store, now), body, now, isUri, generate).0.Created?
  {
    assert body.shortcode.s !in Reap(store, now);
  }

  /** When all five generated candidates collide, the loop keeps the last
      one and the save is refused by the unique index: the request fails
      and the record that already holds that code is left as it was. */
  lemma ExhaustedGenerationFails(store: Store, body: CreateBody, now: int, isUri: string -> bool,
                                 generate: nat -> string)
    requires StoreInvariant(store)
    requires UrlAccepted(body.url, isUri) && !Truthy(body.shortcode)
    requires forall k :: 0 <= k < MaxAttempts ==> generate(k) in store
    ensures PickGenerated(store, generate) == Pick(generate(MaxAttempts - 1), MaxAttempts)
    ensures CreateOutcome(store, body, now, isUri, generate) == (ServerError(DuplicateKey), store)
  {
  }

  /** Removing the expired records changes no answer about a live code and
      turns every 410 into a 404; resolving and then removing gives the same
      store as removing and then resolving. */
  lemma ReapOnlyHidesExpired(store: Store, code: string, now: int, visit: Visit,
                             lookup: string -> Option<string>)
    requires StoreInvariant(store)
    ensures var before := ResolveOutcome(store, code, now, visit, lookup);
      var after := ResolveOutcome(Reap(store, now), code, now, visit, lookup);
      && (before.0 == Gone ==> after.0 == NotFound)
      && (before.0 != Gone ==> after.0 == before.0)
      && after.1 == Reap(before.1, now)
    ensures var before := StatsOutcome(store, code, now);
      var after := StatsOutcome(Reap(store, now), code, now);
      && (before == Gone ==> after == NotFound)
      && (before != Gone ==> after == before)
  {
    var before := ResolveOutcome(store, code, now, visit, lookup);
    var after := ResolveOutcome(Reap(store, now), code, now, visit, lookup);
    var r1 := Reap(before.1, now);
    assert after.1.Keys == r1.Keys;
    assert forall c :: c in r1 ==> after.1[c] == r1[c];
  }

  /** Two click logs that differ at most in the recorded addresses. */
  predicate SameExceptIp(a: seq<Click>, b: seq<Click>) {
    && |a| == |b|
    && forall i :: 0 <= i < |a| ==>
         a[i].timestamp == b[i].timestamp && a[i].referrer == b[i].referrer && a[i].location == b[i].location
  }

  /** The statistics never reveal an address: two stores that differ only in
      the addresses of their clicks give the same statistics. */
  lemma StatsIgnoreAddresses(s1: Store, s2: Store, code: string, now: int)
    requires StoreInvariant(s1) && StoreInvariant(s2)
    requires s1.Keys == s2.Keys
    requires forall c :: c in s1 ==>
      && s1[c].(clickData := []) == s2[c].(clickData := [])
      && SameExceptIp(s1[c].clickData, s2[c].clickData)
    ensures StatsOutcome(s1, code, now) == StatsOutcome(s2, code, now)
  {
    if code in s1 && !Expired(s1[code], now) {
      var v1 := StatsOutcome(s1, code, now).view;
      var v2 := StatsOutcome(s2, code, now).view;
      assert s1[code].(clickData := []).clicks == s2[code].(clickData := []).clicks;
      assert v1.clicks == v2.clicks;
    }
  }

  /** A request to the store, as the handlers and the expiry index issue them. */
  datatype Request =
    | CreateRequest(body: CreateBody, now: int, isUri: string -> bool, generate: nat -> string)
    | ResolveRequest(code: string, now: int, visit: Visit, lookup: string -> Option<string>)
    | StatsRequest(code: string, now: int)
    | ReapPass(now: int)

  function Step(store: Store, req: Request): (s: Store)
    requires StoreInvariant(store)
    ensures StoreInvariant(s)
  {
    match req
    case CreateRequest(body, now, isUri, generate) => CreateOutcome(store, body, now, isUri, generate).1
    case ResolveRequest(code, now, visit, lookup) => ResolveOutcome(store, code, now, visit, lookup).1
    case StatsRequest(_, _) => store
    case ReapPass(now) => Reap(store, now)
  }

  /** The store after a sequence of requests; the invariant (unique codes,
      required fields, `clicks == |clickData|`) holds after any of them. */
  function Run(store: Store, reqs: seq<Request>): (s: Store)
    requires StoreInvariant(store)
    ensures StoreInvariant(s)
    decreases |reqs|
  {
    if reqs == [] then store else Run(Step(store, reqs[0]), reqs[1..])
  }

  /** Between two passes of the expiry index, no record disappears, its
      target, creation time and expiry never change, its click log only
      grows at the end, and its counter never decreases. */
  lemma {:induction false} RunKeepsLogs(store: Store, reqs: seq<Request>)
    requires StoreInvariant(store)
    requires forall i :: 0 <= i < |reqs| ==> !reqs[i].ReapPass?
    ensures forall c :: c in store ==>
      && c in Run(store, reqs)
      && Run(store, reqs)[c].longUrl == store[c].longUrl
      && Run(store, reqs)[c].createdAt == store[c].createdAt
      && Run(store, reqs)[c].expireAt == store[c].expireAt
      && store[c].clickData <= Run(store, reqs)[c].clickData
      && store[c].clicks <= Run(store, reqs)[c].clicks
    decreases |reqs|
  {
    if reqs != [] {
      var next := Step(store, reqs[0]);
      assert forall c :: c in store ==>
        && c in next && next[c].longUrl == store[c].longUrl
        && next[c].createdAt == store[c].createdAt && next[c].expireAt == store[c].expireAt
        && store[c].clickData <= next[c].clickData;
      RunKeepsLogs(next, reqs[1..]);
    }
  }

  // ---------------------------------------------------------------------
  // The store, updated in place
  // ---------------------------------------------------------------------

  /** The collection the handlers share.  Its methods do what the handlers
      do, step by step, and each is proved to agree with the function above. */
  class UrlStore {
    var records: Store

    ghost predicate Valid()
      reads this
    {
      StoreInvariant(records)
    }

    constructor ()
      ensures Valid() && records == map[]
    {
      records := map[];
    }

    /** The generate-and-check loop of the create handler. */
    method GenerateCode(generate: nat -> string) returns (code: string, calls: nat)
      ensures Pick(code, calls) == PickGenerated(records, generate)
    {
      var attempts := 0;
      while true
        invariant 0 <= attempts < MaxAttempts
        invariant PickFrom(records, generate, attempts) == PickFrom(records, generate, 0)
        decreases MaxAttempts - attempts
      {
        code := generate(attempts);
        var taken := code in records;
        if !taken {
          break;
        }
        attempts := attempts + 1;
        if attempts >= MaxAttempts {
          break;
        }
      }
      calls := attempts + (if code in records then 0 else 1);
    }

    method Create(body: CreateBody, now: int, isUri: string -> bool, generate: nat -> string)
      returns (res: Response)
      requires Valid()
      modifies this
      ensures Valid()
      ensures (res, records) == CreateOutcome(old(records), body, now, isUri, generate)
    {
      if !UrlAccepted(body.url, isUri) {
        return BadRequest(InvalidUrlMessage);
      }
      var expireAt := RequestExpireAt(now, body.validity);
      var codeToUse: string;
      if Truthy(body.shortcode) {
        if !IsValidCustom(body.shortcode) {
          return BadRequest(InvalidShortcodeMessage);
        }
        if body.shortcode.s in records {
          return Conflict;
        }
        codeToUse := body.shortcode.s;
      } else {
        var calls;
        codeToUse, calls := GenerateCode(generate);
      }
      var doc := NewRecord(codeToUse, body.url.s, now, expireAt);
      match Insert(records, doc)
      case Saved(s) =>
        records := s;
        res := Created(codeToUse, expireAt);
      case SaveFailed(e) =>
        res := ServerError(e);
    }

    method Resolve(code: string, now: int, visit: Visit, lookup: string -> Option<string>)
      returns (res: Response)
      requires Valid()
      modifies this
      ensures Valid()
      ensures (res, records) == ResolveOutcome(old(records), code, now, visit, lookup)
    {
      if code !in records {
        return NotFound;
      }
      var doc := records[code];
      if doc.expireAt <= now {
        return Gone;
      }
      var requestIp := ClientIp(visit);
      var referrer := Referrer(visit);
      var geo := match lookup(requestIp) case Some(country) => country case None => "Unknown";
      doc := doc.(clicks := doc.clicks + 1);
      doc := doc.(clickData := doc.clickData + [Click(now, referrer, requestIp, geo)]);
      records := records[code := doc];
      res := Redirect(doc.longUrl);
    }

    method Stats(code: string, now: int) returns (res: Response)
      requires Valid()
      ensures res == StatsOutcome(records, code, now)
    {
      if code !in records {
        return NotFound;
      }
      var doc := records[code];
      if doc.expireAt <= now {
        return Gone;
      }
      res := Response.Stats(StatsView(doc.shortcode, doc.longUrl, doc.createdAt, doc.expireAt,
                                      doc.clicks, PublicClicks(doc.clickData)));
    }
  }
}
