/**
 * The main page: the summary table built over the selection, skipping every
 * dataset whose fetch fails, and the rendering loop over the same selection.
 * Fetching (HTTP, JSON decoding, normalisation and the time-limited cache) is
 * given as parameters: `fetch` is what `fetch_data` yields per URL in the
 * summary loop, `refetch` what it yields per URL in the rendering loop. The
 * cache keeps only successful results, so a URL that succeeded in the first
 * loop is answered from the cache in the second (`CacheHits`), while a URL
 * that failed is requested again and may now succeed.
 */
module Dashboard {
  import opened Seqs
  import opened Tables
  import opened Charts
  import opened Sidebar

  /** The outcome of `fetch_data(url)`: the table and the time stamp taken
      when it was fetched, or the exception that was raised. */
  datatype Fetch = Fetched(table: Table, fetchedAt: string) | Failed(cause: string)

  /** One row of the summary table. */
  datatype SummaryRow = SummaryRow(name: string, url: string, records: nat, fields: nat, updated: string)

  /** The page: the prompt shown when nothing is selected, or the report. */
  datatype Page =
    | SelectPrompt
    | Report(summary: seq<SummaryRow>, failures: seq<Dataset>, sections: seq<Section>)

  function SummaryRowOf(d: Dataset, t: Table, fetchedAt: string): SummaryRow {
    SummaryRow(d.name, d.url, |t.rows|, |t.columns|, fetchedAt)
  }

  /** A successful fetch in the summary loop is served again by the cache in
      the rendering loop. */
  ghost predicate CacheHits(fetch: string -> Fetch, refetch: string -> Fetch) {
    forall u :: fetch(u).Fetched? ==> refetch(u) == fetch(u)
  }

  /** The summary table the loop builds over `selected`: at most one row per
      selected dataset, each naming a selected dataset whose fetch succeeded
      and carrying that table's row and column counts and fetch time. */
  function SummaryOf(selected: seq<Dataset>, fetch: string -> Fetch): (r: seq<SummaryRow>)
    ensures |r| <= |selected|
    ensures forall row :: row in r ==>
      Dataset(row.name, row.url) in selected && fetch(row.url).Fetched? &&
      row == SummaryRowOf(Dataset(row.name, row.url), fetch(row.url).table, fetch(row.url).fetchedAt)
  {
    if selected == [] then []
    else
      var d := selected[|selected| - 1];
      SummaryOf(selected[..|selected| - 1], fetch) +
        match fetch(d.url)
        case Fetched(t, at) => [SummaryRowOf(d, t, at)]
        case Failed(_) => []
  }

  /** The sections the rendering loop produces over `selected`: at most one
      per selected dataset, each the rendering of a selected dataset whose
      fetch succeeded. */
  function SectionsOf(selected: seq<Dataset>, refetch: string -> Fetch, widgets: map<string, string>,
                      toDate: Converter): (r: seq<Section>)
    ensures |r| <= |selected|
    ensures forall s :: s in r ==>
      (exists d :: d in selected && refetch(d.url).Fetched? &&
                   s == RenderDataset(d.name, refetch(d.url).table, widgets, toDate))
  {
    if selected == [] then []
    else
      var d := selected[|selected| - 1];
      SectionsOf(selected[..|selected| - 1], refetch, widgets, toDate) +
        match refetch(d.url)
        case Fetched(t, _) => [RenderDataset(d.name, t, widgets, toDate)]
        case Failed(_) => []
  }

  /** The selected datasets whose fetch succeeds, and those whose fetch fails. */
  function Succeeded(selected: seq<Dataset>, fetch: string -> Fetch): seq<Dataset> {
    Filter(selected, (d: Dataset) => fetch(d.url).Fetched?)
  }

  function Failures(selected: seq<Dataset>, fetch: string -> Fetch): seq<Dataset> {
    Filter(selected, (d: Dataset) => fetch(d.url).Failed?)
  }

  /** The summary loop: one row per successful fetch, and one error message,
      naming the dataset, per failed fetch. */
  method Summarize(selected: seq<Dataset>, fetch: string -> Fetch)
    returns (rows: seq<SummaryRow>, failures: seq<Dataset>)
    ensures rows == SummaryOf(selected, fetch)
    ensures failures == Failures(selected, fetch)
  {
    ghost var failed := (d: Dataset) => fetch(d.url).Failed?;
    rows, failures := [], [];
    var i := 0;
    while i < |selected|
      invariant 0 <= i <= |selected|
      invariant rows == SummaryOf(selected[..i], fetch)
      invariant failures == Filter(selected[..i], failed)
    {
      var d := selected[i];
      assert selected[..i + 1][..i] == selected[..i];
      assert selected[..i + 1] == selected[..i] + [d];
      FilterAppend(selected[..i], d, failed);
      i := i + 1;
      var outcome := fetch(d.url);
      if outcome.Failed? {
        failures := failures + [d];
        continue;
      }
      rows := rows + [SummaryRowOf(d, outcome.table, outcome.fetchedAt)];
    }
    assert selected[..i] == selected;
  }

  /** The rendering loop: each dataset whose fetch succeeds is rendered;
      failures are skipped without a message. */
  method RenderAll(selected: seq<Dataset>, refetch: string -> Fetch, widgets: map<string, string>,
                   toDate: Converter)
    returns (sections: seq<Section>)
    ensures sections == SectionsOf(selected, refetch, widgets, toDate)
  {
    sections := [];
    var i := 0;
    while i < |selected|
      invariant 0 <= i <= |selected|
      invariant sections == SectionsOf(selected[..i], refetch, widgets, toDate)
    {
      var d := selected[i];
      assert selected[..i + 1] == selected[..i] + [d];
      SectionsOfAppend(selected[..i], d, refetch, widgets, toDate);
      i := i + 1;
      var outcome := refetch(d.url);
      if outcome.Failed? {
        continue;
      }
      sections := sections + [RenderDataset(d.name, outcome.table, widgets, toDate)];
    }
    assert selected[..i] == selected;
  }

  /** One more dataset adds its section exactly when its fetch succeeds. */
  lemma SectionsOfAppend(selected: seq<Dataset>, d: Dataset, refetch: string -> Fetch,
                         widgets: map<string, string>, toDate: Converter)
    ensures SectionsOf(selected + [d], refetch, widgets, toDate) ==
      SectionsOf(selected, refetch, widgets, toDate) +
      (if refetch(d.url).Fetched? then [RenderDataset(d.name, refetch(d.url).table, widgets, toDate)] else [])
  {
    assert (selected + [d])[..|selected|] == selected;
  }

  /** One run of app.py: the sidebar, then either the prompt or the summary
      table followed by the sections. */
  method RunDashboard(catalogue: seq<Category>, ticked: set<string>, customName: string, customUrl: string,
                      fetch: string -> Fetch, refetch: string -> Fetch, widgets: map<string, string>,
                      toDate: Converter)
    returns (page: Page)
    ensures page.SelectPrompt? <==> customUrl == "" && forall d :: d in AllItems(catalogue) ==> d.url !in ticked
    ensures var selected := SelectionOf(catalogue, ticked, customName, customUrl);
      page == if selected == [] then SelectPrompt
              else Report(SummaryOf(selected, fetch), Failures(selected, fetch),
                          SectionsOf(selected, refetch, widgets, toDate))
  {
    var selected := AssembleSelection(catalogue, ticked, customName, customUrl);
    EmptySelection(catalogue, ticked, customName, customUrl);
    if selected == [] {
      return SelectPrompt;
    }
    var rows, failures := Summarize(selected, fetch);
    var sections := RenderAll(selected, refetch, widgets, toDate);
    return Report(rows, failures, sections);
  }

  /** The summary has one row per successful fetch, in selection order, and
      each row carries that dataset's name, URL, row and column counts and
      fetch time. */
  lemma {:induction false} SummaryMatchesSucceeded(selected: seq<Dataset>, fetch: string -> Fetch)
    ensures var ok := Succeeded(selected, fetch);
      var rows := SummaryOf(selected, fetch);
      && |rows| == |ok|
      && forall k :: 0 <= k < |ok| ==>
           fetch(ok[k].url).Fetched? &&
           rows[k] == SummaryRowOf(ok[k], fetch(ok[k].url).table, fetch(ok[k].url).fetchedAt)
  {
    if selected != [] {
      var n := |selected| - 1;
      var d := selected[n];
      assert selected == selected[..n] + [d];
      SummaryMatchesSucceeded(selected[..n], fetch);
      FilterAppend(selected[..n], d, (d: Dataset) => fetch(d.url).Fetched?);
    }
  }

  /** The sections are, in selection order, the renderings of the datasets
      whose fetch in the rendering loop succeeds. */
  lemma {:induction false} SectionsMatchSucceeded(selected: seq<Dataset>, refetch: string -> Fetch,
                                                  widgets: map<string, string>, toDate: Converter)
    ensures var ok := Succeeded(selected, refetch);
      var sections := SectionsOf(selected, refetch, widgets, toDate);
      && |sections| == |ok|
      && forall k :: 0 <= k < |ok| ==>
           refetch(ok[k].url).Fetched? &&
           sections[k] == RenderDataset(ok[k].name, refetch(ok[k].url).table, widgets, toDate)
  {
    if selected != [] {
      var n := |selected| - 1;
      var d := selected[n];
      assert selected == selected[..n] + [d];
      SectionsMatchSucceeded(selected[..n], refetch, widgets, toDate);
      FilterAppend(selected[..n], d, (d: Dataset) => refetch(d.url).Fetched?);
    }
  }

  /** Failures are isolated: every selected dataset yields either a summary
      row or an error message, never both, and the successes keep their
      selection order. */
  lemma ErrorsAreIsolated(selected: seq<Dataset>, fetch: string -> Fetch)
    ensures |SummaryOf(selected, fetch)| + |Failures(selected, fetch)| == |selected|
    ensures IsSubsequence(Succeeded(selected, fetch), selected)
    ensures forall d :: d in Failures(selected, fetch) <==> d in selected && fetch(d.url).Failed?
  {
    SummaryMatchesSucceeded(selected, fetch);
    FilterPartition(selected, (d: Dataset) => fetch(d.url).Fetched?, (d: Dataset) => fetch(d.url).Failed?);
    FilterIsSubsequence(selected, (d: Dataset) => fetch(d.url).Fetched?);
  }

  /** With the cache serving every earlier success, every dataset that has a
      summary row is rendered, in the same relative order and from the same
      table; the rendering loop may render more, namely retried failures. */
  lemma SummarizedAreRendered(selected: seq<Dataset>, fetch: string -> Fetch, refetch: string -> Fetch)
    requires CacheHits(fetch, refetch)
    ensures IsSubsequence(Succeeded(selected, fetch), Succeeded(selected, refetch))
    ensures forall d :: d in Succeeded(selected, fetch) ==> refetch(d.url) == fetch(d.url)
  {
    var first := (d: Dataset) => fetch(d.url).Fetched?;
    var second := (d: Dataset) => refetch(d.url).Fetched?;
    forall d | d in selected
      ensures first(d) ==> second(d)
    {
      if fetch(d.url).Fetched? {
        assert refetch(d.url) == fetch(d.url);
      }
    }
    FilterStronger(selected, first, second);
  }

  /** When, in addition, every failure fails again, the k-th summary row and
      the k-th section describe the same dataset with the same counts. */
  lemma SummaryAgreesWithSections(selected: seq<Dataset>, fetch: string -> Fetch, refetch: string -> Fetch,
                                  widgets: map<string, string>, toDate: Converter)
    requires CacheHits(fetch, refetch)
    requires forall u :: fetch(u).Failed? ==> refetch(u).Failed?
    ensures var rows := SummaryOf(selected, fetch);
      var sections := SectionsOf(selected, refetch, widgets, toDate);
      && |rows| == |sections|
      && forall k :: 0 <= k < |rows| ==>
           rows[k].name == sections[k].name && rows[k].records == sections[k].records &&
           rows[k].fields == sections[k].fields
  {
    var first := (d: Dataset) => fetch(d.url).Fetched?;
    var second := (d: Dataset) => refetch(d.url).Fetched?;
    forall d | d in selected
      ensures first(d) <==> second(d)
    {
      if fetch(d.url).Fetched? {
        assert refetch(d.url) == fetch(d.url);
      }
    }
    FilterSamePredicate(selected, first, second);
    var ok := Succeeded(selected, fetch);
    assert Succeeded(selected, refetch) == ok;
    SummaryMatchesSucceeded(selected, fetch);
    SectionsMatchSucceeded(selected, refetch, widgets, toDate);
    var rows := SummaryOf(selected, fetch);
    var sections := SectionsOf(selected, refetch, widgets, toDate);
    forall k | 0 <= k < |rows|
      ensures rows[k].name == sections[k].name && rows[k].records == sections[k].records &&
              rows[k].fields == sections[k].fields
    {
      assert refetch(ok[k].url) == fetch(ok[k].url);
    }
  }

  /** The retry of app.py:187: a dataset whose first fetch fails, so that it
      gets an error message and no summary row, is still rendered when the
      second request succeeds. */
  lemma RetriedFailureIsRendered(d: Dataset, t: Table, widgets: map<string, string>, toDate: Converter)
    ensures var fetch := (u: string) => Failed("timeout");
      var refetch := (u: string) => Fetched(t, "2024-01-01 00:00 UTC");
      && SummaryOf([d], fetch) == [] && Failures([d], fetch) == [d]
      && SectionsOf([d], refetch, widgets, toDate) == [RenderDataset(d.name, t, widgets, toDate)]
  {
    assert [d][..0] == [];
  }
}
