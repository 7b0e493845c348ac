/** The per-link verdict of `LinkChecker.check_link`, the screenshot data URI of
    `capture_screenshot`, and the specification of how `check_all_links` sorts
    the extracted links into its broken and passed lists. The browser and the
    HTTP library are inputs: a link is its `href` attribute (possibly absent)
    and its text, and the HEAD request is a probe that answers a status code
    or raises. */
module Links {
  import opened Text

  /** One anchor element as the page yields it. */
  datatype Link = Link(href: Option<string>, text: string)

  /** Reading the `href` attribute: a value (possibly absent) or an exception
      such as a stale element. */
  datatype AttrRead = Read(value: Option<string>) | Raised

  /** What `requests.head(href, allow_redirects=True, timeout=...)` does: it
      answers with the final status code, or it raises (timeout, connection
      error, unsupported scheme, ...). */
  datatype ProbeOutcome = Response(statusCode: int) | Failed

  /** The records appended by `check_all_links`: a passed record carries only
      `url` and `text`, a broken one also a `screenshot`. */
  datatype LinkRecord =
    | PassedLink(url: Option<string>, text: string)
    | BrokenLink(url: Option<string>, text: string, screenshot: string)

  const ScreenshotPrefix: string := "data:image/png;base64,"

  /** An href that `check_link` accepts before any request is made. */
  predicate NeedsNoProbe(href: Option<string>) {
    href.None? || href.value == "" || StartsWith(href.value, "javascript:") || StartsWith(href.value, "#")
  }

  /** A probe outcome that counts as a working link. */
  predicate Reachable(outcome: ProbeOutcome) {
    outcome.Response? && outcome.statusCode < 400
  }

  /** `check_link`: the verdict for one link; every exception becomes `false`. */
  function CheckLink(read: AttrRead, probe: string -> ProbeOutcome): (working: bool)
    ensures read.Raised? ==> !working
    ensures read.Read? && NeedsNoProbe(read.value) ==> working
    ensures read.Read? && !NeedsNoProbe(read.value) ==> (working <==> Reachable(probe(read.value.value)))
  {
    match read
    case Raised => false
    case Read(None) => true
    case Read(Some(href)) =>
      if |href| == 0 || href[0] == '#' || (|href| >= 11 && href[..11] == "javascript:") then
        true
      else
        match probe(href)
        case Response(code) => code < 400
        case Failed => false
  }

  /** A link that needs no probe gets the same verdict whatever the probe would say. */
  lemma ProbeNotConsulted(href: Option<string>, p1: string -> ProbeOutcome, p2: string -> ProbeOutcome)
    requires NeedsNoProbe(href)
    ensures CheckLink(Read(href), p1) == CheckLink(Read(href), p2) == true
  {
  }

  /** Only the probe's answer for the link's own href matters. */
  lemma ProbeOnlyOfHref(href: string, p1: string -> ProbeOutcome, p2: string -> ProbeOutcome)
    requires p1(href) == p2(href)
    ensures CheckLink(Read(Some(href)), p1) == CheckLink(Read(Some(href)), p2)
  {
  }

  /** `capture_screenshot`: the driver's base64 PNG as a data URI. */
  function CaptureScreenshot(base64: string): (uri: string)
    ensures StartsWith(uri, ScreenshotPrefix)
    ensures uri[|ScreenshotPrefix|..] == base64
  {
    ScreenshotPrefix + base64
  }

  /** Two different screenshots never give the same data URI. */
  lemma CaptureScreenshotInjective(a: string, b: string)
    requires CaptureScreenshot(a) == CaptureScreenshot(b)
    ensures a == b
  {
  }

  /** A record of the right variant for its list; broken ones carry a data URI. */
  predicate WellFormed(r: LinkRecord, working: bool) {
    if working then r.PassedLink? else r.BrokenLink? && StartsWith(r.screenshot, ScreenshotPrefix)
  }

  /** The verdict the crawl reaches for one link (the href it read, handed to `check_link`). */
  predicate Works(link: Link, probe: string -> ProbeOutcome) {
    CheckLink(Read(link.href), probe)
  }

  /** The record the crawl appends for the link at position i; `screenshot(i)`
      is what the browser returns while that link is being handled. */
  function RecordOf(link: Link, i: nat, probe: string -> ProbeOutcome, screenshot: nat -> string): (r: LinkRecord)
    ensures r.url == link.href && r.text == link.text
    ensures WellFormed(r, Works(link, probe))
  {
    if Works(link, probe) then PassedLink(link.href, link.text)
    else BrokenLink(link.href, link.text, CaptureScreenshot(screenshot(i)))
  }

  /** The records of the links whose verdict is `working`, in extraction order:
      the specification of what `check_all_links` appends to `passed_links`
      (working) or `broken_links` (not working). */
  function Select(links: seq<Link>, probe: string -> ProbeOutcome, screenshot: nat -> string, working: bool): seq<LinkRecord>
  {
    if links == [] then []
    else
      var i := |links| - 1;
      Select(links[..i], probe, screenshot, working)
        + (if Works(links[i], probe) == working then [RecordOf(links[i], i, probe, screenshot)] else [])
  }

  /** Handling one more link extends exactly one of the two lists. */
  lemma SelectSnoc(links: seq<Link>, i: nat, probe: string -> ProbeOutcome, screenshot: nat -> string, working: bool)
    requires i < |links|
    ensures Select(links[..i + 1], probe, screenshot, working)
         == Select(links[..i], probe, screenshot, working)
            + (if Works(links[i], probe) == working then [RecordOf(links[i], i, probe, screenshot)] else [])
  {
    assert links[..i + 1][..i] == links[..i];
  }

  /** No link is dropped and none is counted twice. */
  lemma {:induction false} SelectPartition(links: seq<Link>, probe: string -> ProbeOutcome, screenshot: nat -> string)
    ensures |Select(links, probe, screenshot, false)| + |Select(links, probe, screenshot, true)| == |links|
  {
    if links != [] {
      SelectPartition(links[..|links| - 1], probe, screenshot);
    }
  }

  /** Every selected record has the shape of its list. */
  lemma {:induction false} SelectWellFormed(links: seq<Link>, probe: string -> ProbeOutcome, screenshot: nat -> string, working: bool)
    ensures forall r <- Select(links, probe, screenshot, working) :: WellFormed(r, working)
  {
    if links != [] {
      SelectWellFormed(links[..|links| - 1], probe, screenshot, working);
    }
  }

  /** The records of an earlier prefix of the links are a prefix of the records. */
  lemma {:induction false} SelectPrefix(links: seq<Link>, j: nat, probe: string -> ProbeOutcome, screenshot: nat -> string, working: bool)
    requires j <= |links|
    ensures Select(links[..j], probe, screenshot, working) <= Select(links, probe, screenshot, working)
    decreases |links|
  {
    if j < |links| {
      var n := |links| - 1;
      assert links[..n][..j] == links[..j];
      SelectPrefix(links[..n], j, probe, screenshot, working);
    } else {
      assert links[..j] == links;
    }
  }

  /** A link with verdict `working` lands in that list, at the position given
      by the number of such links before it. */
  lemma SelectPlaced(links: seq<Link>, i: nat, probe: string -> ProbeOutcome, screenshot: nat -> string, working: bool)
    requires i < |links| && Works(links[i], probe) == working
    ensures |Select(links[..i], probe, screenshot, working)| < |Select(links, probe, screenshot, working)|
    ensures Select(links, probe, screenshot, working)[|Select(links[..i], probe, screenshot, working)|]
         == RecordOf(links[i], i, probe, screenshot)
  {
    SelectSnoc(links, i, probe, screenshot, working);
    SelectPrefix(links, i + 1, probe, screenshot, working);
  }

  /** Extraction order is kept: a selected link comes before every selected
      link that follows it. */
  lemma SelectOrdered(links: seq<Link>, j: nat, i: nat, probe: string -> ProbeOutcome, screenshot: nat -> string, working: bool)
    requires j < i <= |links| && Works(links[j], probe) == working
    ensures |Select(links[..j], probe, screenshot, working)| < |Select(links[..i], probe, screenshot, working)|
  {
    SelectSnoc(links, j, probe, screenshot, working);
    assert links[..i][..j + 1] == links[..j + 1];
    SelectPrefix(links[..i], j + 1, probe, screenshot, working);
  }

  /** Every record in a list comes from a link with that verdict, at the
      position the links before it give. */
  lemma {:induction false} SelectOrigin(links: seq<Link>, k: nat, probe: string -> ProbeOutcome, screenshot: nat -> string, working: bool)
    requires k < |Select(links, probe, screenshot, working)|
    ensures exists i :: 0 <= i < |links| && Works(links[i], probe) == working
                        && |Select(links[..i], probe, screenshot, working)| == k
                        && Select(links, probe, screenshot, working)[k] == RecordOf(links[i], i, probe, screenshot)
    decreases |links|
  {
    var n := |links| - 1;
    var before := Select(links[..n], probe, screenshot, working);
    if k < |before| {
      SelectOrigin(links[..n], k, probe, screenshot, working);
      var i :| 0 <= i < n && Works(links[..n][i], probe) == working
               && |Select(links[..n][..i], probe, screenshot, working)| == k
               && before[k] == RecordOf(links[..n][i], i, probe, screenshot);
      assert links[..n][..i] == links[..i];
      assert links[..n][i] == links[i];
    } else {
      assert Works(links[n], probe) == working && k == |before|;
    }
  }
}
