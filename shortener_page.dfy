/** The client form of the shortener page: up to five rows of (URL,
    validity, custom shortcode), the per-row check run before anything is
    sent, and the request bodies built from the rows. */
module ShortenerPage {
  import opened Js
  import Shortcode
  import Shortener

  const MaxRows := 5

  const InvalidUrl := "Invalid URL"
  const InvalidValidity := "Validity must be integer"
  const InvalidShortcode := "Invalid shortcode"

  /** One row of the form; every field is the text of an input box. */
  datatype Row = Row(url: string, validity: string, shortcode: string)

  const BlankRow := Row("", "", "")

  datatype RowField = UrlField | ValidityField | ShortcodeField

  function Get(row: Row, f: RowField): string {
    match f
    case UrlField => row.url
    case ValidityField => row.validity
    case ShortcodeField => row.shortcode
  }

  function With(row: Row, f: RowField, v: string): Row {
    match f
    case UrlField => row.(url := v)
    case ValidityField => row.(validity := v)
    case ShortcodeField => row.(shortcode := v)
  }

  /** `/^https?:\/\/.+/`: "http://" or "https://" followed by one character
      that is not a line terminator (the pattern has no end anchor). */
  predicate UrlPatternOk(s: string) {
    || (|s| > 7 && s[..7] == "http://" && !IsLineTerminator(s[7]))
    || (|s| > 8 && s[..8] == "https://" && !IsLineTerminator(s[8]))
  }

  /** Whether `[a-zA-Z0-9_-]{lo,hi}$` matches all of `s`. */
  function RepeatMatch(s: string, lo: nat, hi: nat): bool
    decreases |s|
  {
    if s == [] then lo == 0
    else hi > 0 && Shortcode.IsCodeChar(s[0]) && RepeatMatch(s[1..], if lo > 0 then lo - 1 else 0, hi - 1)
  }

  lemma {:induction false} RepeatMatchMeans(s: string, lo: nat, hi: nat)
    ensures RepeatMatch(s, lo, hi) <==>
      lo <= |s| <= hi && forall i :: 0 <= i < |s| ==> Shortcode.IsCodeChar(s[i])
    decreases |s|
  {
    if s != [] && hi > 0 {
      RepeatMatchMeans(s[1..], if lo > 0 then lo - 1 else 0, hi - 1);
      assert forall i :: 1 <= i < |s| ==> s[i] == s[1..][i - 1];
    }
  }

  /** `/^[a-zA-Z0-9_-]{4,32}$/`. */
  predicate ShortcodePatternOk(s: string) {
    RepeatMatch(s, 4, 32)
  }

  /** The client's shortcode pattern and the server's `isValidCustom` agree
      on every non-empty string. */
  lemma ClientAgreesWithServer(s: string)
    ensures s != "" ==> (ShortcodePatternOk(s) <==> Shortcode.IsValidCustom(Text(s)))
  {
    RepeatMatchMeans(s, 4, 32);
  }

  /** `validate(u)`: the URL is checked first, then a non-empty validity
      (refused when `parseInt` gives NaN), then a non-empty shortcode; the
      first failure is reported, and None means the row passes. */
  function Validate(u: Row): (r: Option<string>)
    ensures r == Some(InvalidUrl) <==> !UrlPatternOk(u.url)
    ensures r == Some(InvalidValidity) <==>
      UrlPatternOk(u.url) && u.validity != "" && ParseInt(u.validity).None?
    ensures r == Some(InvalidShortcode) <==>
      && UrlPatternOk(u.url) && (u.validity == "" || ParseInt(u.validity).Some?)
      && u.shortcode != "" && !Shortcode.IsValidCustom(Text(u.shortcode))
    ensures r == None <==>
      && UrlPatternOk(u.url) && (u.validity == "" || ParseInt(u.validity).Some?)
      && (u.shortcode == "" || Shortcode.IsValidCustom(Text(u.shortcode)))
  {
    ClientAgreesWithServer(u.shortcode);
    if !UrlPatternOk(u.url) then Some(InvalidUrl)
    else if u.validity != "" && ParseInt(u.validity).None? then Some(InvalidValidity)
    else if u.shortcode != "" && !ShortcodePatternOk(u.shortcode) then Some(InvalidShortcode)
    else None
  }

  /** The body posted for a row: the URL, the parsed validity when the box
      is not empty, and the shortcode when it is not empty. A NaN validity
      would reach the server as null, which is what `None` also stands for. */
  datatype Payload = Payload(url: string, validity: Option<int>, shortcode: Option<string>)

  function PayloadOf(u: Row): Payload {
    Payload(u.url,
            if u.validity != "" then ParseInt(u.validity) else None,
            if u.shortcode != "" then Some(u.shortcode) else None)
  }

  /** What `shortenUrls` ends in: the bodies it posts, or the error of the
      row that made it throw before posting anything. */
  datatype Submission = Posted(payloads: seq<Payload>) | Thrown(error: string)

  /** The index of the first row that `validate` refuses, or the number of
      rows when it refuses none. */
  function FirstInvalid(rows: seq<Row>): (k: nat)
    ensures k <= |rows|
    ensures forall j :: 0 <= j < k ==> Validate(rows[j]).None?
    ensures k < |rows| ==> Validate(rows[k]).Some?
  {
    if rows == [] || Validate(rows[0]).Some? then 0
    else
      var k := FirstInvalid(rows[1..]);
      assert forall j :: 1 <= j < 1 + k ==> rows[j] == rows[1..][j - 1];
      1 + k
  }

  /** `urls.map(...)` with `validate` inside: the callback runs on the rows
      in order and throws at the first one `validate` refuses, so nothing is
      posted unless every row passes; otherwise each row gives one body. */
  function Submit(rows: seq<Row>): (r: Submission)
    ensures r.Posted? <==> forall i :: 0 <= i < |rows| ==> Validate(rows[i]).None?
    ensures r.Posted? ==>
      |r.payloads| == |rows| && forall i :: 0 <= i < |rows| ==> r.payloads[i] == PayloadOf(rows[i])
    ensures r.Thrown? ==>
      FirstInvalid(rows) < |rows| && Validate(rows[FirstInvalid(rows)]) == Some(r.error)
  {
    var k := FirstInvalid(rows);
    if k < |rows| then Thrown(Validate(rows[k]).value)
    else Posted(seq(|rows|, i requires 0 <= i < |rows| => PayloadOf(rows[i])))
  }

  /** What the server's create handler receives for a posted body. */
  function BodyOf(p: Payload): Shortener.CreateBody {
    Shortener.CreateBody(
      Text(p.url),
      match p.validity case Some(n) => Shortener.Num(n as real) case None => Shortener.Unset,
      match p.shortcode case Some(c) => Text(c) case None => Absent)
  }

  /** A row that passes `validate` reaches the server with a shortcode the
      server accepts (or none), and the link it asks for lasts 30 minutes when
      the validity box is empty or parses to 0, and otherwise the parsed
      number of minutes, but at least one. */
  lemma ValidRowReachesServer(u: Row, now: int)
    requires Validate(u).None?
    ensures var body := BodyOf(PayloadOf(u));
      && (Truthy(body.shortcode) ==> Shortcode.IsValidCustom(body.shortcode))
      && (u.validity == "" ==>
            Shortener.RequestExpireAt(now, body.validity) == now + 30 * Shortener.MillisPerMinute)
      && (u.validity != "" ==>
            var n := ParseInt(u.validity).value;
            Shortener.RequestExpireAt(now, body.validity)
              == now + (if n == 0 then 30 else if n < 1 then 1 else n) * Shortener.MillisPerMinute)
  {
    if u.validity != "" {
      var n := ParseInt(u.validity).value;
      assert (n as real).Floor == n;
    }
  }

  /** The state of the page: the rows of the form. */
  class FormState {
    var urls: seq<Row>

    ghost predicate Valid()
      reads this
    {
      1 <= |urls| <= MaxRows
    }

    constructor ()
      ensures Valid() && urls == [BlankRow]
    {
      urls := [BlankRow];
    }

    /** `handleChange(index, field, value)`; the inputs only ever pass the
        index of a row they render. */
    method HandleChange(index: nat, field: RowField, value: string)
      requires Valid()
      requires index < |urls|
      modifies this
      ensures Valid()
      ensures |urls| == |old(urls)|
      ensures Get(urls[index], field) == value
      ensures forall g :: g != field ==> Get(urls[index], g) == Get(old(urls)[index], g)
      ensures forall j :: 0 <= j < |urls| && j != index ==> urls[j] == old(urls)[j]
    {
      var copy := urls;
      copy := copy[index := With(copy[index], field, value)];
      urls := copy;
    }

    /** `addField()`: one blank row more, unless there are five already. */
    method AddField()
      requires Valid()
      modifies this
      ensures Valid()
      ensures |old(urls)| < MaxRows ==> urls == old(urls) + [BlankRow]
      ensures |old(urls)| >= MaxRows ==> urls == old(urls)
    {
      if |urls| < MaxRows {
        urls := urls + [BlankRow];
      }
    }
  }
}
