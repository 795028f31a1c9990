/**
 * `main`: scrape, show, filter, then save and analyse only when there is
 * something left. The browser, the console and the CSV file are outside the
 * model; what remains is which stages run, in which order, on which table.
 */
module Tracker {
  import opened Common
  import opened Table
  import opened Scraper
  import opened FilterEngine
  import opened Analyzer

  /** The observable steps of a run: the last one is the closing "DONE" message. */
  datatype Stage = Fetch | Display | Filter | Save | Analyze | Done

  /**
   * A run: the stages in the order they happen, the table handed to
   * `save_to_csv` (if any) and the lists found by the analysis (None when it
   * does not run or raises).
   */
  datatype Outcome = Outcome(stages: seq<Stage>, saved: Option<seq<Coin>>, report: Option<Report>)

  /** The records `fetch_crypto_data` returns for the page. */
  function Scraped(page: seq<Row>, timestamp: string): seq<Coin>
  {
    Records(Take(page, MaxRows), timestamp)
  }

  /**
   * The stages of a run, given whether anything was scraped, whether any row
   * survived the filter and whether the analysis finished without raising.
   */
  function Stages(scraped: bool, kept: bool, analysed: bool): seq<Stage>
  {
    if !scraped then [Fetch]
    else if !kept then [Fetch, Display, Filter, Done]
    else if analysed then [Fetch, Display, Filter, Save, Analyze, Done]
    else [Fetch, Display, Filter, Save, Analyze]
  }

  /**
   * `main` on a rendered page, a capture time, the filter answers and a
   * number parser. What is saved is the non-empty filtered table, a
   * subsequence of the scraped records; the analysis runs on exactly that
   * table and is defined when every 24h key is.
   */
  function Run(page: seq<Row>, timestamp: string, answers: FilterAnswers, parse: Parser): (out: Outcome)
    ensures out.stages == Stages(Scraped(page, timestamp) != [], out.saved.Some?, out.report.Some?)
    ensures out.saved.Some? ==>
      && out.saved.value != []
      && out.saved.value == FilterResult(Scraped(page, timestamp), answers, parse)
      && IsSubsequence(out.saved.value, Scraped(page, timestamp))
    ensures Scraped(page, timestamp) != [] && out.saved.None? ==> FilterResult(Scraped(page, timestamp), answers, parse) == []
    ensures out.report.Some? <==> out.saved.Some? && AllKeyed(out.saved.value, parse)
    ensures out.report.Some? ==> out.report == FindGainersAndLosers(out.saved.value, parse)
  {
    var data := Scraped(page, timestamp);
    if data == [] then Outcome(Stages(false, false, false), None, None)
    else
      var df := FilterResult(data, answers, parse);
      if df == [] then Outcome(Stages(true, false, false), None, None)
      else
        FilterKeepsOrder(data, answers, parse);
        var report := FindGainersAndLosers(df, parse);
        Outcome(Stages(true, true, report.Some?), Some(df), report)
  }

  /**
   * The gating of `main`: the run always starts by fetching; with nothing
   * scraped it ends there; with nothing left after filtering it neither saves
   * nor analyses; saving and analysis happen together, analysis right after
   * saving; the closing message is printed unless the scrape was empty or the
   * analysis raised.
   */
  lemma StagesGating(scraped: bool, kept: bool, analysed: bool)
    ensures var st := Stages(scraped, kept, analysed);
      && |st| >= 1 && st[0] == Fetch
      && (!scraped <==> st == [Fetch])
      && (scraped && !kept ==> Save !in st && Analyze !in st && st[|st| - 1] == Done)
      && (Analyze in st <==> Save in st)
      && (Save in st <==> scraped && kept)
      && (forall i :: 0 <= i < |st| && st[i] == Save ==> i + 1 < |st| && st[i + 1] == Analyze)
      && (Done in st <==> scraped && (kept ==> analysed))
  {
  }
}
