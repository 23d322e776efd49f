/** The multi-account part of the scraper's main block: the `results` dictionary
    filled account by account, the rows of the final summary table, and the
    success tally and post total printed at the end. The dictionary keeps
    Python's insertion order and is modelled as a sequence of key/entry pairs. */
module Summary {
  import opened Wrappers
  import opened Posts
  import opened Batch

  /** `{'posts_count': ..., 'followers': ..., 'status': 'success'}` or `{'status': 'failed'}`. */
  datatype ResultEntry = SuccessEntry(postsCount: nat, followers: int) | FailedEntry

  type Results = seq<(string, ResultEntry)>

  /** One row of the summary table; `followers == None` stands for `'N/A'`. */
  datatype SummaryRow = SummaryRow(username: string, postsScraped: nat, status: string, followers: Option<int>)

  /** The entry stored for one account: `if posts_data:` is Python truthiness, so a
      scrape that returned no posts is recorded as failed, like one that raised. */
  function EntryOf(r: AccountResult): (e: ResultEntry)
    ensures e.SuccessEntry? <==> r.Scraped? && |r.posts| > 0
    ensures e.SuccessEntry? ==> e.postsCount == |r.posts| && e.followers == r.profile.followers
  {
    if r.Scraped? && |r.posts| > 0 then SuccessEntry(|r.posts|, r.profile.followers) else FailedEntry
  }

  function KeySet(d: Results): set<string>
  {
    if d == [] then {} else {d[0].0} + KeySet(d[1..])
  }

  /** The key set holds exactly the keys found at some position. */
  lemma {:induction false} KeySetIndex(d: Results, k: string)
    ensures k in KeySet(d) <==> exists i :: 0 <= i < |d| && d[i].0 == k
  {
    if d != [] {
      KeySetIndex(d[1..], k);
      if k in KeySet(d[1..]) {
        var i :| 0 <= i < |d[1..]| && d[1..][i].0 == k;
        assert d[i + 1].0 == k;
      }
      if exists i :: 0 <= i < |d| && d[i].0 == k {
        var i :| 0 <= i < |d| && d[i].0 == k;
        if i > 0 {
          assert d[1..][i - 1].0 == k;
        }
      }
    }
  }

  /** No key occurs twice, as in a Python dictionary. */
  predicate DistinctKeys(d: Results)
  {
    forall i, j :: 0 <= i < j < |d| ==> d[i].0 != d[j].0
  }

  /** `results[k] = v`: an existing key keeps its place and takes the new entry,
      every other entry is unchanged, and a new key is appended at the end. */
  function Put(d: Results, k: string, v: ResultEntry): (d': Results)
    ensures KeySet(d') == KeySet(d) + {k}
    ensures k !in KeySet(d) ==> d' == d + [(k, v)]
    ensures k in KeySet(d) ==> UpdatesFirst(d, k, (k, v), d')
    ensures (k, v) in d'
  {
    if d == [] then [(k, v)]
    else if d[0].0 == k then
      assert [(k, v)] + d[1..] == d[0 := (k, v)];
      assert ([(k, v)] + d[1..])[1..] == d[1..];
      assert UpdatesFirst(d, k, (k, v), d[0 := (k, v)]) by {
        assert 0 <= 0 < |d| && d[0].0 == k;
      }
      [(k, v)] + d[1..]
    else
      var rest := Put(d[1..], k, v);
      assert ([d[0]] + rest)[1..] == rest;
      if k in KeySet(d[1..]) then
        UpdateFirstCons(d, k, (k, v), rest);
        [d[0]] + rest
      else
        [d[0]] + rest
  }

  /** `d'` replaces the first entry of `d` whose key is `k` by `p`. */
  predicate UpdatesFirst(d: Results, k: string, p: (string, ResultEntry), d': Results)
  {
    exists i :: 0 <= i < |d| && d[i].0 == k && (forall j :: 0 <= j < i ==> d[j].0 != k) && d' == d[i := p]
  }

  /** Replacing the first `k` entry of the tail, behind a head whose key is not
      `k`, replaces the first `k` entry of the whole dictionary. */
  lemma UpdateFirstCons(d: Results, k: string, p: (string, ResultEntry), rest: Results)
    requires d != [] && d[0].0 != k
    requires UpdatesFirst(d[1..], k, p, rest)
    ensures UpdatesFirst(d, k, p, [d[0]] + rest)
  {
    var i :| 0 <= i < |d[1..]| && d[1..][i].0 == k && (forall j :: 0 <= j < i ==> d[1..][j].0 != k)
      && rest == d[1..][i := p];
    assert [d[0]] + rest == d[i + 1 := p];
    forall j | 0 <= j < i + 1
      ensures d[j].0 != k
    {
      if j > 0 {
        assert d[j] == d[1..][j - 1];
      }
    }
  }

  /** Assignment keeps the dictionary free of repeated keys. */
  lemma PutDistinct(d: Results, k: string, v: ResultEntry)
    requires DistinctKeys(d)
    ensures DistinctKeys(Put(d, k, v))
  {
    KeySetIndex(d, k);
    if k in KeySet(d) {
      var i :| 0 <= i < |d| && d[i].0 == k && (forall j :: 0 <= j < i ==> d[j].0 != k) && Put(d, k, v) == d[i := (k, v)];
      SameKeyDistinct(d, i, (k, v));
    } else {
      NewKeyDistinct(d, (k, v));
    }
  }

  lemma SameKeyDistinct(d: Results, i: nat, p: (string, ResultEntry))
    requires DistinctKeys(d) && i < |d| && d[i].0 == p.0
    ensures DistinctKeys(d[i := p])
  {
    assert forall j :: 0 <= j < |d| ==> d[i := p][j].0 == d[j].0;
  }

  lemma NewKeyDistinct(d: Results, p: (string, ResultEntry))
    requires DistinctKeys(d) && forall j :: 0 <= j < |d| ==> d[j].0 != p.0
    ensures DistinctKeys(d + [p])
  {
  }

  /** The dictionary after the loop over `accounts` whose scrapes gave `outcomes`. */
  function ResultsOf(accounts: seq<string>, outcomes: seq<AccountResult>): Results
    requires |accounts| == |outcomes|
  {
    if accounts == [] then []
    else
      var n := |accounts| - 1;
      Put(ResultsOf(accounts[..n], outcomes[..n]), accounts[n], EntryOf(outcomes[n]))
  }

  /** Whatever the account list, the dictionary holds each name at most once. */
  lemma {:induction false} ResultsOfKeysDistinct(accounts: seq<string>, outcomes: seq<AccountResult>)
    requires |accounts| == |outcomes|
    ensures DistinctKeys(ResultsOf(accounts, outcomes))
  {
    if accounts != [] {
      var n := |accounts| - 1;
      ResultsOfKeysDistinct(accounts[..n], outcomes[..n]);
      PutDistinct(ResultsOf(accounts[..n], outcomes[..n]), accounts[n], EntryOf(outcomes[n]));
    }
  }

  /** The account loop: record every account's entry, and wait (a random 15 to
      30 s, not modelled) between two accounts but not after the last. */
  method CollectResults(accounts: seq<string>, outcomes: seq<AccountResult>)
    returns (results: Results, waits: nat)
    requires |outcomes| == |accounts|
    ensures results == ResultsOf(accounts, outcomes)
    ensures waits == if accounts == [] then 0 else |accounts| - 1
  {
    results, waits := [], 0;
    var i := 0;
    while i < |accounts|
      invariant 0 <= i <= |accounts|
      invariant results == ResultsOf(accounts[..i], outcomes[..i])
      invariant waits == if i == |accounts| && i > 0 then i - 1 else i
    {
      assert accounts[..i + 1][..i] == accounts[..i];
      assert outcomes[..i + 1][..i] == outcomes[..i];
      results := Put(results, accounts[i], EntryOf(outcomes[i]));
      if i + 1 < |accounts| {
        waits := waits + 1;
      }
      i := i + 1;
    }
    assert accounts[..i] == accounts && outcomes[..i] == outcomes;
  }

  /** With distinct account names the dictionary lists every account once, in
      order, with the entry of its own scrape. */
  lemma {:induction false} ResultsOfDistinct(accounts: seq<string>, outcomes: seq<AccountResult>)
    requires |accounts| == |outcomes|
    requires forall i, j :: 0 <= i < j < |accounts| ==> accounts[i] != accounts[j]
    ensures forall k :: k in KeySet(ResultsOf(accounts, outcomes)) <==> k in accounts
    ensures |ResultsOf(accounts, outcomes)| == |accounts|
    ensures forall i :: 0 <= i < |accounts| ==> ResultsOf(accounts, outcomes)[i] == (accounts[i], EntryOf(outcomes[i]))
  {
    if accounts != [] {
      var n := |accounts| - 1;
      var earlier, earlierOutcomes := accounts[..n], outcomes[..n];
      ResultsOfDistinct(earlier, earlierOutcomes);
      var prev := ResultsOf(earlier, earlierOutcomes);
      assert accounts == earlier + [accounts[n]];
      assert accounts[n] !in earlier;
      assert accounts[n] !in KeySet(prev);
      assert ResultsOf(accounts, outcomes) == prev + [(accounts[n], EntryOf(outcomes[n]))];
    }
  }

  /** The summary row of one dictionary entry; a failed account shows 0 posts and no follower count. */
  function RowOf(entry: (string, ResultEntry)): (row: SummaryRow)
    ensures row.username == entry.0
    ensures row.status == "success" <==> entry.1.SuccessEntry?
    ensures entry.1.SuccessEntry? ==> row.postsScraped == entry.1.postsCount && row.followers == Some(entry.1.followers)
    ensures entry.1.FailedEntry? ==> row.status == "failed" && row.postsScraped == 0 && row.followers == None
  {
    match entry.1
    case SuccessEntry(count, followers) => SummaryRow(entry.0, count, "success", Some(followers))
    case FailedEntry => SummaryRow(entry.0, 0, "failed", None)
  }

  /** The loop over `results.items()` that fills `summary_data`. */
  method SummaryRows(results: Results) returns (rows: seq<SummaryRow>)
    ensures |rows| == |results|
    ensures forall i :: 0 <= i < |results| ==> rows[i] == RowOf(results[i])
  {
    rows := [];
    var i := 0;
    while i < |results|
      invariant 0 <= i <= |results|
      invariant |rows| == i
      invariant forall j :: 0 <= j < i ==> rows[j] == RowOf(results[j])
    {
      rows := rows + [RowOf(results[i])];
      i := i + 1;
    }
  }

  /** The printed number of accounts whose status is `'success'`. */
  function SuccessTally(results: Results): nat
  {
    if results == [] then 0
    else (if results[0].1.SuccessEntry? then 1 else 0) + SuccessTally(results[1..])
  }

  /** The printed total: the sum of `posts_count`, with 0 for a failed account. */
  function TotalPosts(results: Results): nat
  {
    if results == [] then 0
    else (if results[0].1.SuccessEntry? then results[0].1.postsCount else 0) + TotalPosts(results[1..])
  }

  /** Number of accounts whose scrape returned at least one post. */
  function NonEmptyScrapes(outcomes: seq<AccountResult>): nat
  {
    if outcomes == [] then 0
    else (if outcomes[0].Scraped? && |outcomes[0].posts| > 0 then 1 else 0) + NonEmptyScrapes(outcomes[1..])
  }

  /** Number of posts all scrapes returned. */
  function PostsReturned(outcomes: seq<AccountResult>): nat
  {
    if outcomes == [] then 0
    else (if outcomes[0].Scraped? then |outcomes[0].posts| else 0) + PostsReturned(outcomes[1..])
  }

  /** Tallying the entries one by one is tallying the scrapes they came from. */
  lemma {:induction false} TallyOfEntries(accounts: seq<string>, outcomes: seq<AccountResult>)
    requires |accounts| == |outcomes|
    ensures SuccessTally(seq(|outcomes|, i requires 0 <= i < |outcomes| => (accounts[i], EntryOf(outcomes[i]))))
      == NonEmptyScrapes(outcomes)
    ensures TotalPosts(seq(|outcomes|, i requires 0 <= i < |outcomes| => (accounts[i], EntryOf(outcomes[i]))))
      == PostsReturned(outcomes)
  {
    var d := seq(|outcomes|, i requires 0 <= i < |outcomes| => (accounts[i], EntryOf(outcomes[i])));
    if outcomes != [] {
      TallyOfEntries(accounts[1..], outcomes[1..]);
      assert d[1..] == seq(|outcomes| - 1, i requires 0 <= i < |outcomes| - 1 => (accounts[1..][i], EntryOf(outcomes[1..][i])));
    }
  }

  /** With distinct account names, the printed success tally is the number of
      accounts that returned posts, and the printed total is the number of posts
      returned. */
  lemma SummaryTotals(accounts: seq<string>, outcomes: seq<AccountResult>)
    requires |accounts| == |outcomes|
    requires forall i, j :: 0 <= i < j < |accounts| ==> accounts[i] != accounts[j]
    ensures SuccessTally(ResultsOf(accounts, outcomes)) == NonEmptyScrapes(outcomes)
    ensures TotalPosts(ResultsOf(accounts, outcomes)) == PostsReturned(outcomes)
  {
    ResultsOfDistinct(accounts, outcomes);
    TallyOfEntries(accounts, outcomes);
    assert ResultsOf(accounts, outcomes) ==
      seq(|outcomes|, i requires 0 <= i < |outcomes| => (accounts[i], EntryOf(outcomes[i])));
  }

  /** Number of rows whose status is `'success'`. */
  function SuccessRows(rows: seq<SummaryRow>): nat
  {
    if rows == [] then 0 else (if rows[0].status == "success" then 1 else 0) + SuccessRows(rows[1..])
  }

  /** Sum of the `posts_scraped` column. */
  function PostsColumn(rows: seq<SummaryRow>): nat
  {
    if rows == [] then 0 else rows[0].postsScraped + PostsColumn(rows[1..])
  }

  /** The summary table agrees with the printed totals: its `'success'` rows are
      the tally and its `posts_scraped` column sums to the total. */
  lemma {:induction false} RowsMatchTotals(results: Results, rows: seq<SummaryRow>)
    requires |rows| == |results|
    requires forall i :: 0 <= i < |results| ==> rows[i] == RowOf(results[i])
    ensures SuccessTally(results) == SuccessRows(rows)
    ensures TotalPosts(results) == PostsColumn(rows)
  {
    if results != [] {
      RowsMatchTotals(results[1..], rows[1..]);
    }
  }
}
