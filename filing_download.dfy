/**
 * Choosing which EDGAR filings of a company to download, and where each one
 * is fetched from and stored: every annual and quarterly report, plus the ten
 * most recent current reports (8-K), in filing-date order.
 */
module FilingDownload {
  import opened Text
  import opened Sorting
  import opened Numerals

  /** One entry of the filings JSON; `filingDate` is the 'YYYY-MM-DD' text. */
  datatype Filing = Filing(form: string, filingDate: string, accessionNumber: string, primaryDocument: string)

  /** How many of the most recent 8-Ks are kept. */
  const RecentEightKLimit := 10

  const SecBaseUrl := "https://www.sec.gov/Archives/edgar/data"

  predicate IsPeriodic(f: Filing)
  {
    f.form == "10-K" || f.form == "10-Q"
  }

  predicate IsEightK(f: Filing)
  {
    f.form == "8-K"
  }

  /** Ascending by filing date (the dates compare as strings). */
  predicate Earlier(a: Filing, b: Filing)
  {
    StrLe(a.filingDate, b.filingDate)
  }

  /** Descending by filing date: the order of `sort(..., reverse=True)`. */
  predicate Later(a: Filing, b: Filing)
  {
    StrLe(b.filingDate, a.filingDate)
  }

  lemma EarlierPreorder()
    ensures TotalPreorder(Earlier)
  {
    forall a: Filing, b: Filing
      ensures Earlier(a, b) || Earlier(b, a)
    {
      StrLeTotal(a.filingDate, b.filingDate);
    }
    forall a: Filing, b: Filing, c: Filing | Earlier(a, b) && Earlier(b, c)
      ensures Earlier(a, c)
    {
      StrLeTrans(a.filingDate, b.filingDate, c.filingDate);
    }
  }

  lemma LaterPreorder()
    ensures TotalPreorder(Later)
  {
    forall a: Filing, b: Filing
      ensures Later(a, b) || Later(b, a)
    {
      StrLeTotal(a.filingDate, b.filingDate);
    }
    forall a: Filing, b: Filing, c: Filing | Later(a, b) && Later(b, c)
      ensures Later(a, c)
    {
      StrLeTrans(c.filingDate, b.filingDate, a.filingDate);
    }
  }

  /** The 10-Ks and 10-Qs, in their original order. */
  function Periodic(fs: seq<Filing>): (r: seq<Filing>)
    ensures forall f :: f in r <==> f in fs && IsPeriodic(f)
  {
    if |fs| == 0 then []
    else Periodic(fs[..|fs| - 1]) + (if IsPeriodic(fs[|fs| - 1]) then [fs[|fs| - 1]] else [])
  }

  /** The 8-Ks, in their original order. */
  function EightKs(fs: seq<Filing>): (r: seq<Filing>)
    ensures forall f :: f in r <==> f in fs && IsEightK(f)
  {
    if |fs| == 0 then []
    else EightKs(fs[..|fs| - 1]) + (if IsEightK(fs[|fs| - 1]) then [fs[|fs| - 1]] else [])
  }

  /** The 8-Ks newest first. */
  function EightKsNewestFirst(fs: seq<Filing>): seq<Filing>
  {
    SortBy(EightKs(fs), Later)
  }

  /** `eight_ks[:10]` after sorting newest first. */
  function RecentEightKs(fs: seq<Filing>): seq<Filing>
  {
    var s := EightKsNewestFirst(fs);
    if |s| <= RecentEightKLimit then s else s[..RecentEightKLimit]
  }

  /** The 8-Ks that are not selected. */
  function OlderEightKs(fs: seq<Filing>): seq<Filing>
  {
    var s := EightKsNewestFirst(fs);
    if |s| <= RecentEightKLimit then [] else s[RecentEightKLimit..]
  }

  /** The strategic subset, sorted by filing date. */
  function StrategicFilings(fs: seq<Filing>): seq<Filing>
  {
    SortBy(Periodic(fs) + RecentEightKs(fs), Earlier)
  }

  /** `filter_strategic_filings`: appends, extends and sorts the list in place. */
  method FilterStrategicFilings(filings: seq<Filing>) returns (strategic: seq<Filing>)
    ensures strategic == StrategicFilings(filings)
  {
    strategic := [];
    for i := 0 to |filings|
      invariant strategic == Periodic(filings[..i])
    {
      if filings[i].form == "10-K" || filings[i].form == "10-Q" {
        strategic := strategic + [filings[i]];
      }
      assert filings[..i + 1][..i] == filings[..i];
    }
    assert filings[..|filings|] == filings;
    var eightKs := EightKs(filings);
    eightKs := SortBy(eightKs, Later);
    strategic := strategic + (if |eightKs| <= RecentEightKLimit then eightKs else eightKs[..RecentEightKLimit]);
    strategic := SortBy(strategic, Earlier);
  }

  /**
   * The selection is date-ordered, holds every 10-K and 10-Q and at most ten
   * 8-Ks, and nothing of any other form.
   */
  lemma StrategicSelection(fs: seq<Filing>)
    ensures SortedBy(StrategicFilings(fs), Earlier)
    ensures multiset(StrategicFilings(fs)) == multiset(Periodic(fs)) + multiset(RecentEightKs(fs))
    ensures forall f :: f in fs && IsPeriodic(f) ==> f in StrategicFilings(fs)
    ensures forall f :: f in StrategicFilings(fs) ==> f in fs && (IsPeriodic(f) || IsEightK(f))
    ensures |RecentEightKs(fs)| == if |EightKs(fs)| < RecentEightKLimit then |EightKs(fs)| else RecentEightKLimit
  {
    EarlierPreorder();
    SortBySorted(Periodic(fs) + RecentEightKs(fs), Earlier);
    var r := StrategicFilings(fs);
    var s := EightKsNewestFirst(fs);
    forall f | f in fs && IsPeriodic(f)
      ensures f in r
    {
      assert f in multiset(Periodic(fs));
      assert f in multiset(r);
    }
    forall f | f in r
      ensures f in fs && (IsPeriodic(f) || IsEightK(f))
    {
      assert f in multiset(r);
      if f !in multiset(Periodic(fs)) {
        assert f in RecentEightKs(fs);
        assert f in multiset(s);
        assert f in multiset(EightKs(fs));
      }
    }
  }

  /** The 8-Ks left out are never newer than any 8-K kept, and together they are all the 8-Ks. */
  lemma DroppedEightKsAreOlder(fs: seq<Filing>)
    ensures multiset(RecentEightKs(fs)) + multiset(OlderEightKs(fs)) == multiset(EightKs(fs))
    ensures forall x, y :: x in OlderEightKs(fs) && y in RecentEightKs(fs) ==>
                             StrLe(x.filingDate, y.filingDate)
  {
    var s := EightKsNewestFirst(fs);
    LaterPreorder();
    SortBySorted(EightKs(fs), Later);
    if |s| > RecentEightKLimit {
      assert s == s[..RecentEightKLimit] + s[RecentEightKLimit..];
      forall x, y | x in OlderEightKs(fs) && y in RecentEightKs(fs)
        ensures StrLe(x.filingDate, y.filingDate)
      {
        var i :| 0 <= i < |s| - RecentEightKLimit && s[RecentEightKLimit..][i] == x;
        var j :| 0 <= j < RecentEightKLimit && s[..RecentEightKLimit][j] == y;
        assert Later(s[j], s[i + RecentEightKLimit]);
      }
    }
  }

  /** `construct_filing_url`: the accession number loses its hyphens. */
  function FilingUrl(cik: string, accessionNumber: string, primaryDocument: string): (r: string)
    ensures |r| > |SecBaseUrl| + |cik| + 2 + |primaryDocument|
    ensures r[..|SecBaseUrl| + |cik| + 2] == SecBaseUrl + "/" + cik + "/"
    ensures r[|r| - |primaryDocument| - 1..] == "/" + primaryDocument
    ensures '-' !in r[|SecBaseUrl| + |cik| + 2..|r| - |primaryDocument| - 1]
  {
    UrlSlices(SecBaseUrl + "/" + cik + "/", Remove(accessionNumber, '-'), primaryDocument);
    SecBaseUrl + "/" + cik + "/" + Remove(accessionNumber, '-') + "/" + primaryDocument
  }

  /** The three slices of `head + middle + "/" + document`. */
  lemma UrlSlices(head: string, middle: string, document: string)
    ensures var u := head + middle + "/" + document;
            u[..|head|] == head && u[|head|..|u| - |document| - 1] == middle &&
            u[|u| - |document| - 1..] == "/" + document
  {
    var u := head + middle + "/" + document;
    assert u == head + (middle + ("/" + document));
  }

  /**
   * The path under the base URL splits at '/' into the CIK, the accession
   * number without hyphens and the document name.
   */
  lemma FilingUrlParts(cik: string, accessionNumber: string, primaryDocument: string)
    requires '/' !in cik && '/' !in accessionNumber && '/' !in primaryDocument
    ensures StartsWith(FilingUrl(cik, accessionNumber, primaryDocument), SecBaseUrl + "/")
    ensures SplitOn(FilingUrl(cik, accessionNumber, primaryDocument)[|SecBaseUrl| + 1..], "/") ==
            [cik, Remove(accessionNumber, '-'), primaryDocument]
  {
    var acc := Remove(accessionNumber, '-');
    RemoveKeepsAbsent(accessionNumber, '-', '/');
    var head := SecBaseUrl + "/";
    var tail := cik + ['/'] + (acc + ['/'] + primaryDocument);
    assert FilingUrl(cik, accessionNumber, primaryDocument) == head + tail;
    DropHead(head, tail);
    SplitAtFirst(cik, '/', acc + ['/'] + primaryDocument);
    SplitAtFirst(acc, '/', primaryDocument);
    SplitNoSeparator(primaryDocument, '/');
  }

  lemma DropHead(head: string, tail: string)
    ensures StartsWith(head + tail, head)
    ensures (head + tail)[|head|..] == tail
  {
  }

  /** An accession number given with or without hyphens names the same URL. */
  lemma FilingUrlIgnoresHyphens(cik: string, accessionNumber: string, primaryDocument: string)
    ensures FilingUrl(cik, Remove(accessionNumber, '-'), primaryDocument) == FilingUrl(cik, accessionNumber, primaryDocument)
  {
    RemoveAbsent(Remove(accessionNumber, '-'), '-');
  }

  /** Where a downloaded filing is stored: "{base}/{TICKER}/{year}/{type}/{accession}.html". */
  function LocalPath(baseDir: string, ticker: string, year: int, filingType: string, accessionNumber: string): (r: string)
    ensures |r| >= 5 && r[|r| - 5..] == ".html"
  {
    baseDir + "/" + Upper(ticker) + "/" + IntToString(year) + "/" + filingType + "/" + Remove(accessionNumber, '-') + ".html"
  }

  /** The ticker's case and the accession number's hyphens do not change the path. */
  lemma LocalPathNormalises(baseDir: string, ticker: string, year: int, filingType: string, accessionNumber: string)
    ensures LocalPath(baseDir, Lower(ticker), year, filingType, Remove(accessionNumber, '-')) ==
            LocalPath(baseDir, ticker, year, filingType, accessionNumber)
  {
    UpperOfLower(ticker);
    RemoveAbsent(Remove(accessionNumber, '-'), '-');
  }
}
