/** The stored mapping record, its embedded click events, and the store of
    records with its unique shortcode index and its expiry index.  Times are
    integers counting milliseconds. */
module UrlModel {
  import opened Js

  /** One recorded redirect.  `timestamp` defaults to the time of insertion. */
  datatype Click = Click(timestamp: int, referrer: Option<string>, ip: string, location: string)

  /** One mapping record.  `createdAt` defaults to the creation time and
      `clicks` to 0; `clickData` starts empty. */
  datatype UrlRecord = UrlRecord(
    shortcode: string,
    longUrl: string,
    createdAt: int,
    expireAt: int,
    clicks: nat,
    clickData: seq<Click>)

  /** The collection, keyed by the unique `shortcode` index. */
  type Store = map<string, UrlRecord>

  /** The counter agrees with the log it counts. */
  predicate WellFormed(rec: UrlRecord) {
    rec.clicks == |rec.clickData|
  }

  /** What every stored record satisfies: it sits under its own shortcode
      (so no two records share one), its required fields are present, and its
      counter agrees with its log. */
  predicate StoreInvariant(store: Store) {
    forall c :: c in store ==>
      && store[c].shortcode == c
      && store[c].shortcode != ""
      && store[c].longUrl != ""
      && WellFormed(store[c])
  }

  /** `new Url({shortcode, longUrl, expireAt})`: the schema defaults fill in
      the rest, with `now` as the default creation time. */
  function NewRecord(code: string, url: string, now: int, expireAt: int): UrlRecord {
    UrlRecord(code, url, now, expireAt, 0, [])
  }

  /** A record is expired, and eligible for removal by the expiry index with
      `expireAfterSeconds: 0`, from its `expireAt` onwards. */
  predicate Expired(rec: UrlRecord, now: int) {
    rec.expireAt <= now
  }

  datatype SaveError = RequiredMissing | DuplicateKey

  datatype SaveResult = Saved(store: Store) | SaveFailed(error: SaveError)

  /** `save()` of a new document: the `required` validators run first, then
      the unique index refuses a shortcode that is already stored. */
  function Insert(store: Store, rec: UrlRecord): (r: SaveResult)
    ensures r == SaveFailed(RequiredMissing) <==> rec.shortcode == "" || rec.longUrl == ""
    ensures r == SaveFailed(DuplicateKey) <==>
      rec.shortcode != "" && rec.longUrl != "" && rec.shortcode in store
    ensures r.Saved? ==>
      && rec.shortcode !in store
      && r.store.Keys == store.Keys + {rec.shortcode}
      && |r.store| == |store| + 1
      && r.store[rec.shortcode] == rec
      && (forall c :: c in store ==> r.store[c] == store[c])
    ensures r.Saved? && StoreInvariant(store) && WellFormed(rec) ==> StoreInvariant(r.store)
  {
    if rec.shortcode == "" || rec.longUrl == "" then SaveFailed(RequiredMissing)
    else if rec.shortcode in store then SaveFailed(DuplicateKey)
    else Saved(store[rec.shortcode := rec])
  }

  /** `clicks += 1` followed by `clickData.push(click)`. */
  function WithClick(rec: UrlRecord, click: Click): (r: UrlRecord)
    ensures WellFormed(rec) ==> WellFormed(r)
    ensures r.clicks == rec.clicks + 1 && r.clickData == rec.clickData + [click]
    ensures r.shortcode == rec.shortcode && r.longUrl == rec.longUrl
    ensures r.createdAt == rec.createdAt && r.expireAt == rec.expireAt
  {
    rec.(clicks := rec.clicks + 1, clickData := rec.clickData + [click])
  }

  /** A pass of the expiry index: every expired record is removed. */
  function Reap(store: Store, now: int): (r: Store)
    ensures forall c :: c in r <==> c in store && !Expired(store[c], now)
    ensures forall c :: c in r ==> r[c] == store[c]
    ensures StoreInvariant(store) ==> StoreInvariant(r)
  {
    map c | c in store && !Expired(store[c], now) :: store[c]
  }
}
