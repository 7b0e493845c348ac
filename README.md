# qa-link-checker: a Dafny model of the link checker core

The modelled system loads one start page in a headless browser and collects its anchor
elements. It probes each link's `href` with an HTTP HEAD request and files the link as
broken or passed. Broken links get a screenshot. It can then build an HTML report. This
project models the `LinkChecker` class of `utils/link_checker.py`:

- **Text** (`text.dfy`) holds the string helpers. They cover Python's `startswith` and
  `endswith`, the f-string rendering of a value that may be `None`, and `Concat`, the
  string that repeated `+=` builds.
- **Links** (`links.dfy`) holds the per-link verdict `CheckLink` (`check_link`) and the
  screenshot data URI `CaptureScreenshot` (`capture_screenshot`). It also holds the records
  the crawl appends and `Select`. `Select(links, probe, screenshot, working)` gives the
  records of the links whose verdict is `working`, in extraction order. It is the
  specification of both lists that `check_all_links` builds.
- **Report** (`report.dfy`) holds the string and count logic of `generate_report`: the
  broken-link cards, the passed-link items wrapped in `<ul>…</ul>`, the `broken_open`
  flag, the file name `report_<stamp>.html` and `os.path.join`.
- **Checker** (`checker.dfy`) holds the class `LinkChecker` with the fields
  `brokenLinks`, `passedLinks`, `totalLinks` and `currentLink`. `CheckAllLinks` is the
  crawl loop, proved against `Select`. `GenerateReport` assembles the report fields and
  changes no state.

The browser and the network are inputs:
- a link is a pair of its `href` (possibly absent) and its text;
- the HEAD request is a total function from href to `Response(statusCode)` or `Failed`
  (any exception `requests` raises);
- `screenshot(i)` is the base64 string the browser returns while the link at 0-based
  position `i` is handled;
- the two timestamps, the base URL and the reports directory are parameters of
  `GenerateReport`.

The checker has no per-domain policies, no retries and no HEAD-to-GET fallback.
Every anchor on the start page is checked once. Empty, absent, `javascript:` and `#`
hrefs stay in the crawl and are counted as passed. A probed link works iff its final
status is below 400.

## Model

| member | source | states |
|---|---|---|
| `Links.CheckLink` | utils/link_checker.py:26-35 | a failed attribute read gives `false`; an absent, empty, `javascript:` or `#` href gives `true`; any other href works iff the probe answers a status below 400, and a raising probe gives `false` |
| `Links.ProbeNotConsulted` | utils/link_checker.py:28-30 | for an href that needs no probe, the verdict is `true` whatever the probe would answer |
| `Links.ProbeOnlyOfHref` | utils/link_checker.py:32-33 | the verdict depends only on the probe's answer for that link's own href |
| `Links.CaptureScreenshot` | utils/link_checker.py:37-40 | the result begins with `data:image/png;base64,` and the rest is exactly the driver's base64 string |
| `Links.CaptureScreenshotInjective` | utils/link_checker.py:40 | different screenshots give different data URIs |
| `Links.RecordOf` | utils/link_checker.py:100-114 | the record keeps the link's href as `url` and its text; it is a passed record (url and text only) when the verdict is working, otherwise a broken record whose screenshot is a data URI |
| `Links.SelectPartition` | utils/link_checker.py:95-114 | the broken and passed records together number exactly as many as the links: none dropped, none duplicated |
| `Links.SelectWellFormed` | utils/link_checker.py:103-114 | every passed record is a `PassedLink`; every broken record is a `BrokenLink` whose screenshot begins with the data-URI prefix |
| `Links.SelectPlaced` | utils/link_checker.py:95-114 | a link with a given verdict lands in that list, at the index given by the number of such links before it |
| `Links.SelectOrdered` | utils/link_checker.py:95-114 | list order follows extraction order: an earlier link of a verdict sits before every later one of the same verdict |
| `Links.SelectOrigin` | utils/link_checker.py:95-114 | every record in a list comes from some link with that verdict, placed at that link's rank |
| `Links.SelectPrefix` | utils/link_checker.py:95-114 | the records chosen from a prefix of the links form a prefix of the records chosen from all of them |
| `Text.PieceAt` | utils/link_checker.py:48-50 | each appended piece sits in the accumulated string right after the pieces appended before it |
| `Text.ConcatEmpty` | utils/link_checker.py:48-50 | the accumulated string is empty iff every appended piece is |
| `Report.BrokenCardShows` | utils/link_checker.py:50-58 | a broken card shows the record's URL, then its text, then its screenshot, in that order; an absent href is shown as `None` |
| `Report.PassedItemShows` | utils/link_checker.py:63-68 | a passed item shows the record's URL twice, then its text, in that order; an absent href is shown as `None` |
| `Report.PassedFragment` | utils/link_checker.py:61-69 | `passed_results` starts with `<ul>`, ends with `</ul>`, and holds exactly the items between them |
| `Report.BrokenResultsEmpty` | utils/link_checker.py:48-58 | `link_results` is empty iff there is no broken link |
| `Report.BrokenCardAt` | utils/link_checker.py:48-58 | the card of broken record i appears in `link_results` right after the cards of the records before it |
| `Report.PassedItemAt` | utils/link_checker.py:61-69 | the item of passed record i appears in `passed_results` right after `<ul>` and the items before it |
| `Report.BrokenOpen` | utils/link_checker.py:72 | `"open"` iff the broken list is non-empty, `""` iff it is empty |
| `Report.ReportFilename` | utils/link_checker.py:44 | the name begins with `report_`, ends with `.html`, and what lies between is the stamp |
| `Report.ReportFilenameInjective` | utils/link_checker.py:44 | different stamps give different report file names |
| `Report.PathJoin` | utils/link_checker.py:45 | an absolute name is returned as is; otherwise the path starts with the directory and ends with the name, with exactly one `/` between them when the directory is non-empty and does not end in one, and nothing between them otherwise |
| `Checker.LinkChecker.constructor` | utils/link_checker.py:9-16 | a new checker has empty lists and both counters at 0 |
| `Checker.LinkChecker.CheckAllLinks` | utils/link_checker.py:90-117 | `totalLinks` becomes the number of links; `currentLink` goes up by exactly that many; the broken and passed lists grow by exactly `Select` of the links with verdict false and true; the broken list is returned; the percentage division never divides by zero; for a fresh checker `currentLink == totalLinks == |brokenLinks| + |passedLinks|` afterwards |
| `Checker.LinkChecker.BuildLinkResults` | utils/link_checker.py:48-58 | the first report loop yields the concatenation of the broken cards in list order |
| `Checker.LinkChecker.BuildPassedResults` | utils/link_checker.py:60-69 | the second report loop yields `PassedFragment` of the passed list |
| `Checker.LinkChecker.GenerateReport` | utils/link_checker.py:42-88 | the path is the reports directory joined with `report_<stamp>.html`; `total_passed` and `total_broken` are the list lengths; `total_links` is the counter, and equals their sum after a fresh crawl; the fragments are as above; `broken_open` is `"open"` iff there is a broken link; the object is not changed |

## Left out

- The browser and the network: `driver.get(Config.BASE_URL)`, `find_elements` (`get_all_links`), `requests.head` and `get_screenshot_as_base64` are inputs, as described above. Redirect following and the request timeout only affect what the probe answers.
- Reading `href` and `text` at lines 100-101 happens outside any `try`. A stale element there raises out of `check_all_links` in the source. The model's links are plain values, so that abort path is not modelled. `CheckLink` still models the attribute read raising inside `check_link`.
- `Checker.LinkChecker.CheckAllLinks`: the crawl hands `check_link` the href read at line 100. In the source, `check_link` reads the attribute again at line 28. The model assumes the second read gives the same value as the first. It does not model that second read raising, which would file the link as broken, or returning a different href.
- An exception from `get_screenshot_as_base64` would also escape `check_all_links`; not modelled.
- `Checker.LinkChecker.CheckAllLinks`: the progress `print` and its one-decimal float formatting are console output. The model computes the percentage only as an exact real, so that the division is checked for a zero divisor.
- `Checker.LinkChecker.CheckAllLinks`: the source returns the list object itself, so a caller that mutates the result also mutates the checker. The model returns a value.
- `Checker.LinkChecker.GenerateReport`: loading the template from disk, `os.makedirs`, `str.format` into the template and writing the file are file I/O. The template fill is modelled as the `ReportFields` record of the named fields.
- `datetime.now()` and `strftime` are parameters. The two calls in the source may straddle a second, so the displayed timestamp and the file-name stamp are independent parameters.
- `Report.PathJoin`: models POSIX `os.path.join` only, not the Windows rules.
- `Config` (environment variables with defaults) is not part of this model. `BASE_URL` is an optional parameter because `os.getenv` may return `None`. `REPORTS_DIR` is a parameter.
- main.py (console output, opening the report in a browser, quitting the driver) and utils/webdriver.py (Chrome setup) are not part of this model.
