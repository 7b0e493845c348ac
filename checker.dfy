/** The `LinkChecker` object: its two record lists and two counters, the crawl
    loop of `check_all_links` and the report assembly of `generate_report`. */
module Checker {
  import opened Text
  import opened Links
  import opened Report

  class LinkChecker {
    var brokenLinks: seq<LinkRecord>
    var passedLinks: seq<LinkRecord>
    var totalLinks: nat
    var currentLink: nat

    /** Each list holds only records of its own kind; broken ones carry a data URI. */
    ghost predicate Valid()
      reads this
    {
      (forall r <- brokenLinks :: WellFormed(r, false))
      && (forall r <- passedLinks :: WellFormed(r, true))
    }

    /** The counters agree with the lists, as after one crawl by a fresh checker. */
    ghost predicate Balanced()
      reads this
    {
      currentLink == totalLinks == |brokenLinks| + |passedLinks|
    }

    /** `__init__`: empty lists and zero counters. */
    constructor ()
      ensures Valid() && Balanced()
      ensures brokenLinks == [] && passedLinks == [] && totalLinks == 0 && currentLink == 0
    {
      brokenLinks := [];
      passedLinks := [];
      totalLinks := 0;
      currentLink := 0;
    }

    /** `check_all_links` over the links the start page yields: every link is
        appended, in order, to exactly one list; the result is the broken list. */
    method CheckAllLinks(links: seq<Link>, probe: string -> ProbeOutcome, screenshot: nat -> string)
      returns (broken: seq<LinkRecord>)
      requires Valid()
      modifies this
      ensures Valid()
      ensures totalLinks == |links|
      ensures currentLink == old(currentLink) + |links|
      ensures brokenLinks == old(brokenLinks) + Select(links, probe, screenshot, false)
      ensures passedLinks == old(passedLinks) + Select(links, probe, screenshot, true)
      ensures broken == brokenLinks
      ensures old(brokenLinks) == [] && old(passedLinks) == [] && old(currentLink) == 0 ==> Balanced()
    {
      ghost var start, broken0, passed0 := currentLink, brokenLinks, passedLinks;
      totalLinks := |links|;
      for i := 0 to |links|
        invariant totalLinks == |links|
        invariant currentLink == start + i
        invariant brokenLinks == broken0 + Select(links[..i], probe, screenshot, false)
        invariant passedLinks == passed0 + Select(links[..i], probe, screenshot, true)
        invariant Valid()
      {
        currentLink := currentLink + 1;
        assert start == 0 ==> 1 <= currentLink <= totalLinks;
        var percentage: real := (currentLink as real / totalLinks as real) * 100.0;
        var href := links[i].href;
        var text := links[i].text;
        if !CheckLink(Read(href), probe) {
          brokenLinks := brokenLinks + [BrokenLink(href, text, CaptureScreenshot(screenshot(i)))];
        } else {
          passedLinks := passedLinks + [PassedLink(href, text)];
        }
        SelectSnoc(links, i, probe, screenshot, false);
        SelectSnoc(links, i, probe, screenshot, true);
      }
      assert links[..|links|] == links;
      SelectPartition(links, probe, screenshot);
      broken := brokenLinks;
    }

    /** The first loop of `generate_report`: one card per broken record, appended in order. */
    static method BuildLinkResults(broken: seq<LinkRecord>) returns (linkResults: string)
      requires AllBroken(broken)
      ensures linkResults == Concat(BrokenCards(broken))
    {
      linkResults := "";
      for i := 0 to |broken|
        invariant linkResults == Concat(BrokenCards(broken)[..i])
      {
        ConcatSnoc(BrokenCards(broken), i);
        linkResults := linkResults + BrokenCard(broken[i]);
      }
      assert BrokenCards(broken)[..|broken|] == BrokenCards(broken);
    }

    /** The second loop of `generate_report`: the passed items between `<ul>` and `</ul>`. */
    static method BuildPassedResults(passed: seq<LinkRecord>) returns (passedResults: string)
      ensures passedResults == PassedFragment(passed)
    {
      passedResults := "<ul>";
      for i := 0 to |passed|
        invariant passedResults == "<ul>" + Concat(PassedItems(passed)[..i])
      {
        ConcatSnoc(PassedItems(passed), i);
        passedResults := passedResults + PassedItem(passed[i]);
      }
      assert PassedItems(passed)[..|passed|] == PassedItems(passed);
      passedResults := passedResults + "</ul>";
    }

    /** The string and count logic of `generate_report`: the report path and
        the fields handed to the template. */
    method GenerateReport(timestamp: string, stamp: string, baseUrl: Option<string>, reportsDir: string)
      returns (path: string, report: ReportFields)
      requires Valid()
      ensures path == PathJoin(reportsDir, ReportFilename(stamp))
      ensures report.timestamp == timestamp && report.baseUrl == baseUrl
      ensures report.totalLinks == totalLinks
      ensures report.totalPassed == |passedLinks| && report.totalBroken == |brokenLinks|
      ensures report.linkResults == Concat(BrokenCards(brokenLinks))
      ensures report.passedResults == PassedFragment(passedLinks)
      ensures report.brokenOpen == "open" <==> brokenLinks != []
      ensures report.brokenOpen == "" <==> brokenLinks == []
      ensures Balanced() ==> report.totalLinks == report.totalPassed + report.totalBroken
    {
      path := PathJoin(reportsDir, ReportFilename(stamp));

      var linkResults := BuildLinkResults(brokenLinks);
      var passedResults := BuildPassedResults(passedLinks);
      var brokenOpen := BrokenOpen(brokenLinks);

      report := ReportFields(timestamp, baseUrl, totalLinks, |passedLinks|, |brokenLinks|,
                              linkResults, passedResults, brokenOpen);
    }
  }
}
