/** The string and count logic of `LinkChecker.generate_report`: the HTML
    fragment per broken and per passed link, the `<ul>` wrapper, the
    `broken_open` flag, the report file name and its path. Filling the HTML
    template is modelled as producing the record of the named fields. */
module Report {
  import opened Text
  import opened Links

  const Nl12: string := "\n            "
  const Nl16: string := "\n                "
  const Nl20: string := "\n                    "

  /** The pieces of the `link-card` block of a broken record, in writing order:
      the URL is piece 5, the text piece 9 and the screenshot piece 15. */
  function BrokenCardPieces(r: LinkRecord): seq<string>
    requires r.BrokenLink?
  {
    ["<div class=\"link-card\">",
     Nl20, "<h3>Broken Link Found</h3>",
     Nl20, "<p><strong>URL:</strong> <span class=\"error\">", PyStr(r.url), "</span></p>",
     Nl20, "<p><strong>Link Text:</strong> ", r.text, "</p>",
     Nl20, "<h4>Screenshot:</h4>",
     Nl20, "<img src=\"", r.screenshot, "\" class=\"screenshot\" alt=\"Error Screenshot\">",
     Nl16, "</div>",
     Nl12]
  }

  /** The `link-card` block written for one broken record. */
  function BrokenCard(r: LinkRecord): (card: string)
    requires r.BrokenLink?
    ensures StartsWith(card, Nl16)
  {
    Nl16 + Concat(BrokenCardPieces(r))
  }

  /** The pieces of the `<li>` block of a passed record, in writing order:
      the URL is pieces 3 and 5, the text piece 9. */
  function PassedItemPieces(r: LinkRecord): seq<string> {
    ["<li>",
     Nl20, "<p><strong>URL:</strong> <a href=\"", PyStr(r.url), "\" target=\"_blank\" class=\"success\">",
     PyStr(r.url), "</a></p>",
     Nl20, "<p><strong>Link Text:</strong> ", r.text, "</p>",
     Nl16, "</li>",
     Nl12]
  }

  /** The `<li>` block written for one passed record. */
  function PassedItem(r: LinkRecord): (item: string)
    ensures StartsWith(item, Nl16)
  {
    Nl16 + Concat(PassedItemPieces(r))
  }

  /** `t` occurs in `s` starting at index k. */
  predicate AppearsAt(s: string, t: string, k: int) {
    0 <= k && k + |t| <= |s| && s[k..k + |t|] == t
  }

  /** Piece i of a block `prefix + Concat(pieces)` appears at its offset. */
  lemma PieceInBlock(prefix: string, pieces: seq<string>, i: nat)
    requires i < |pieces|
    ensures AppearsAt(prefix + Concat(pieces), pieces[i], |prefix| + |Concat(pieces[..i])|)
  {
    PieceAt(pieces, i);
    var whole := Concat(pieces);
    var off := |Concat(pieces[..i])|;
    assert (prefix + whole)[|prefix| + off..|prefix| + off + |pieces[i]|] == whole[off..off + |pieces[i]|];
  }

  /** A broken card shows the record's URL (`None` when the href is absent),
      then its text, then its screenshot. */
  lemma BrokenCardShows(r: LinkRecord)
    requires r.BrokenLink?
    ensures var card := BrokenCard(r);
      exists k1, k2, k3 :: k1 + |PyStr(r.url)| <= k2 && k2 + |r.text| <= k3
        && AppearsAt(card, PyStr(r.url), k1) && AppearsAt(card, r.text, k2) && AppearsAt(card, r.screenshot, k3)
    ensures r.url.None? ==> exists k :: AppearsAt(BrokenCard(r), "None", k)
  {
    var ps := BrokenCardPieces(r);
    PieceInBlock(Nl16, ps, 5);
    PieceInBlock(Nl16, ps, 9);
    PieceInBlock(Nl16, ps, 15);
    ConcatGrows(ps, 5, 9);
    ConcatGrows(ps, 9, 15);
    assert BrokenCard(r) == Nl16 + Concat(ps);
    assert ps[5] == PyStr(r.url) && ps[9] == r.text && ps[15] == r.screenshot;
  }

  /** A passed item shows the record's URL twice (`None` when the href is
      absent), then its text. */
  lemma PassedItemShows(r: LinkRecord)
    ensures var item := PassedItem(r);
      exists k1, k2, k3 :: k1 + |PyStr(r.url)| <= k2 && k2 + |PyStr(r.url)| <= k3
        && AppearsAt(item, PyStr(r.url), k1) && AppearsAt(item, PyStr(r.url), k2) && AppearsAt(item, r.text, k3)
    ensures r.url.None? ==> exists k :: AppearsAt(PassedItem(r), "None", k)
  {
    var ps := PassedItemPieces(r);
    PieceInBlock(Nl16, ps, 3);
    PieceInBlock(Nl16, ps, 5);
    PieceInBlock(Nl16, ps, 9);
    ConcatGrows(ps, 3, 5);
    ConcatGrows(ps, 5, 9);
    assert PassedItem(r) == Nl16 + Concat(ps);
    assert ps[3] == PyStr(r.url) && ps[5] == PyStr(r.url) && ps[9] == r.text;
  }

  predicate AllBroken(broken: seq<LinkRecord>) {
    forall r <- broken :: r.BrokenLink?
  }

  /** One card per broken record, in list order. */
  function BrokenCards(broken: seq<LinkRecord>): (cards: seq<string>)
    requires AllBroken(broken)
    ensures |cards| == |broken|
    ensures forall i :: 0 <= i < |broken| ==> cards[i] == BrokenCard(broken[i])
  {
    seq(|broken|, i requires 0 <= i < |broken| => BrokenCard(broken[i]))
  }

  /** One item per passed record, in list order. */
  function PassedItems(passed: seq<LinkRecord>): (items: seq<string>)
    ensures |items| == |passed|
    ensures forall i :: 0 <= i < |passed| ==> items[i] == PassedItem(passed[i])
  {
    seq(|passed|, i requires 0 <= i < |passed| => PassedItem(passed[i]))
  }

  /** The `passed_results` value: the items wrapped in a list element. */
  function PassedFragment(passed: seq<LinkRecord>): (fragment: string)
    ensures StartsWith(fragment, "<ul>") && EndsWith(fragment, "</ul>")
    ensures |fragment| >= 9 && fragment[4..|fragment| - 5] == Concat(PassedItems(passed))
  {
    "<ul>" + Concat(PassedItems(passed)) + "</ul>"
  }

  /** `link_results` is empty exactly when there is no broken link. */
  lemma BrokenResultsEmpty(broken: seq<LinkRecord>)
    requires AllBroken(broken)
    ensures Concat(BrokenCards(broken)) == "" <==> broken == []
  {
  }

  /** The card of broken record i appears in `link_results` right after the
      cards of the records before it. */
  lemma BrokenCardAt(broken: seq<LinkRecord>, i: nat)
    requires AllBroken(broken) && i < |broken|
    ensures var off := |Concat(BrokenCards(broken[..i]))|;
      off + |BrokenCard(broken[i])| <= |Concat(BrokenCards(broken))|
      && Concat(BrokenCards(broken))[off..off + |BrokenCard(broken[i])|] == BrokenCard(broken[i])
  {
    assert BrokenCards(broken)[..i] == BrokenCards(broken[..i]);
    PieceAt(BrokenCards(broken), i);
  }

  /** The item of passed record i appears in `passed_results` right after the
      opening tag and the items of the records before it. */
  lemma PassedItemAt(passed: seq<LinkRecord>, i: nat)
    requires i < |passed|
    ensures var off := 4 + |Concat(PassedItems(passed[..i]))|;
      off + |PassedItem(passed[i])| <= |PassedFragment(passed)| - 5
      && PassedFragment(passed)[off..off + |PassedItem(passed[i])|] == PassedItem(passed[i])
  {
    var items := PassedItems(passed);
    assert items[..i] == PassedItems(passed[..i]);
    PieceAt(items, i);
    var whole := Concat(items);
    var off := |Concat(items[..i])|;
    var f := PassedFragment(passed);
    assert f == "<ul>" + whole + "</ul>";
    assert f[4 + off..4 + off + |items[i]|] == whole[off..off + |items[i]|];
  }

  /** The `broken_open` flag: "open" when there is a broken link, "" otherwise. */
  function BrokenOpen(broken: seq<LinkRecord>): (flag: string)
    ensures flag == "open" <==> broken != []
    ensures flag == "" <==> broken == []
  {
    if |broken| > 0 then "open" else ""
  }

  /** `report_<stamp>.html`. */
  function ReportFilename(stamp: string): (name: string)
    ensures StartsWith(name, "report_") && EndsWith(name, ".html")
    ensures |name| >= 12 && name[7..|name| - 5] == stamp
  {
    "report_" + stamp + ".html"
  }

  /** Different stamps give different file names. */
  lemma ReportFilenameInjective(a: string, b: string)
    requires ReportFilename(a) == ReportFilename(b)
    ensures a == b
  {
  }

  /** `os.path.join(directory, name)` with POSIX separators. */
  function PathJoin(directory: string, name: string): (path: string)
    ensures StartsWith(name, "/") ==> path == name
    ensures !StartsWith(name, "/") ==> EndsWith(path, name) && StartsWith(path, directory)
    ensures !StartsWith(name, "/") && (directory == "" || EndsWith(directory, "/")) ==>
              |path| == |directory| + |name|
    ensures !StartsWith(name, "/") && directory != "" && !EndsWith(directory, "/") ==>
              |path| == |directory| + 1 + |name| && path[|directory|] == '/'
  {
    if |name| > 0 && name[0] == '/' then name
    else if |directory| == 0 || directory[|directory| - 1] == '/' then directory + name
    else directory + "/" + name
  }

  /** The values handed to the report template. */
  datatype ReportFields = ReportFields(
    timestamp: string,
    baseUrl: Option<string>,
    totalLinks: int,
    totalPassed: nat,
    totalBroken: nat,
    linkResults: string,
    passedResults: string,
    brokenOpen: string)
}
