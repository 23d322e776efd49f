/** The per-account loop of `scrape_account`: walk the profile's post feed,
    stop once an optional cap of scraped posts is reached, turn every post into
    a record, skip a post whose record cannot be built after a 30 s cooldown, log
    progress every 25 records and take a 60 s break every 100 records. */
module Batch {
  import opened Wrappers
  import opened Posts

  /** Seconds slept after a post that failed. */
  const FailureCooldown: int := 30
  /** Seconds of the long break. */
  const LongBreak: int := 60
  /** A progress line is logged whenever the count of records is a multiple of this. */
  const ProgressEvery: nat := 25
  /** The long break is taken whenever the count of records is a multiple of this. */
  const BreakEvery: nat := 100

  /** One element of the feed: a post whose record was built, or a post whose
      fields raised while the record was built. */
  datatype Item = Fetched(post: Post) | Broken(message: string)

  /** What the loop does that can be observed: the random 3 to 5 s pause before
      each post (its length is not modelled), a fixed sleep, a progress line
      `done/planned`. */
  datatype Event = Jitter | Slept(seconds: int) | Progress(done: nat, planned: int)

  /** What `scrape_account` returns: the records and the profile, or `(None, None)`
      after an error outside the per-post handler. */
  datatype AccountResult = Scraped(posts: seq<PostRecord>, profile: Profile) | ScrapeFailed(message: string)

  /** Python's truthiness of `max_posts`: `None` and `0` both mean "no cap". */
  predicate Capped(maxPosts: Option<int>)
  {
    maxPosts.Some? && maxPosts.value != 0
  }

  /** The check at the top of each iteration: `max_posts and scraped_count >= max_posts`. */
  predicate CapReached(maxPosts: Option<int>, count: int)
  {
    Capped(maxPosts) && count >= maxPosts.value
  }

  /** `posts_to_scrape`, the planned total shown in progress lines: the smaller of
      the cap and the profile's post count when capped, the post count otherwise. */
  function PostsToScrape(maxPosts: Option<int>, mediaCount: int): (n: int)
    ensures Capped(maxPosts) ==> n <= maxPosts.value && n <= mediaCount
    ensures Capped(maxPosts) ==> n == maxPosts.value || n == mediaCount
    ensures !Capped(maxPosts) ==> n == mediaCount
  {
    if Capped(maxPosts) then
      if maxPosts.value <= mediaCount then maxPosts.value else mediaCount
    else mediaCount
  }

  /** Number of posts in `items` whose record was built. */
  function SuccessCount(items: seq<Item>): nat
  {
    if items == [] then 0
    else SuccessCount(items[..|items| - 1]) + (if items[|items| - 1].Fetched? then 1 else 0)
  }

  /** Number of posts in `items` that failed. */
  function FailureCount(items: seq<Item>): nat
  {
    if items == [] then 0
    else FailureCount(items[..|items| - 1]) + (if items[|items| - 1].Broken? then 1 else 0)
  }

  /** The records `posts_data` holds after the loop handled `items`: the
      successful posts' records, in feed order. */
  function Records(target: string, items: seq<Item>): seq<PostRecord>
  {
    if items == [] then []
    else
      var last := items[|items| - 1];
      Records(target, items[..|items| - 1]) + (if last.Fetched? then [BuildRecord(target, last.post)] else [])
  }

  /** The events of handling one item when `before` records exist. */
  function ItemLog(before: nat, planned: int, item: Item): seq<Event>
  {
    match item
    case Fetched(_) =>
      var done := before + 1;
      [Jitter]
        + (if done % ProgressEvery == 0 then [Progress(done, planned)] else [])
        + (if done % BreakEvery == 0 then [Slept(LongBreak)] else [])
    case Broken(_) => [Jitter, Slept(FailureCooldown)]
  }

  /** The events of handling `items` in order. */
  function BatchLog(planned: int, items: seq<Item>): seq<Event>
  {
    if items == [] then []
    else
      var init := items[..|items| - 1];
      BatchLog(planned, init) + ItemLog(SuccessCount(init), planned, items[|items| - 1])
  }

  /** The first position at or after `i` where the loop stops: the end of the
      feed, or a position where the cap has already been reached. */
  function StopFrom(maxPosts: Option<int>, items: seq<Item>, i: nat): (k: nat)
    requires i <= |items|
    requires forall j :: 0 <= j < i ==> !CapReached(maxPosts, SuccessCount(items[..j]))
    ensures i <= k <= |items|
    ensures k == |items| || CapReached(maxPosts, SuccessCount(items[..k]))
    ensures forall j :: 0 <= j < k ==> !CapReached(maxPosts, SuccessCount(items[..j]))
    decreases |items| - i
  {
    if i == |items| || CapReached(maxPosts, SuccessCount(items[..i])) then i
    else StopFrom(maxPosts, items, i + 1)
  }

  /** How many items of the feed the loop handles before it stops. */
  function Stop(maxPosts: Option<int>, items: seq<Item>): (k: nat)
    ensures k <= |items|
    ensures k == |items| || CapReached(maxPosts, SuccessCount(items[..k]))
    ensures forall j :: 0 <= j < k ==> !CapReached(maxPosts, SuccessCount(items[..j]))
  {
    StopFrom(maxPosts, items, 0)
  }

  /** `Stop` is the only position that is a stopping point with none before it. */
  lemma StopIsFirst(maxPosts: Option<int>, items: seq<Item>, k: nat)
    requires k <= |items|
    requires k == |items| || CapReached(maxPosts, SuccessCount(items[..k]))
    requires forall j :: 0 <= j < k ==> !CapReached(maxPosts, SuccessCount(items[..j]))
    ensures k == Stop(maxPosts, items)
  {
  }

  /** Handling one more post extends the records, the count and the log by that post's share. */
  lemma HandleOne(target: string, planned: int, items: seq<Item>, i: nat)
    requires i < |items|
    ensures Records(target, items[..i + 1]) ==
      Records(target, items[..i]) + (if items[i].Fetched? then [BuildRecord(target, items[i].post)] else [])
    ensures SuccessCount(items[..i + 1]) == SuccessCount(items[..i]) + (if items[i].Fetched? then 1 else 0)
    ensures BatchLog(planned, items[..i + 1]) ==
      BatchLog(planned, items[..i]) + ItemLog(SuccessCount(items[..i]), planned, items[i])
  {
    assert items[..i + 1][..i] == items[..i];
  }

  /** The body of the loop for one post (the `try`/`except` block): pause, then
      append the post's record, count it, and log progress or take the long
      break at the multiples; or, if the record cannot be built, cool down. */
  method HandleItem(target: string, planned: int, item: Item,
                    postsData: seq<PostRecord>, scrapedCount: nat, log: seq<Event>)
    returns (postsData': seq<PostRecord>, scrapedCount': nat, log': seq<Event>)
    ensures postsData' == postsData + (if item.Fetched? then [BuildRecord(target, item.post)] else [])
    ensures scrapedCount' == scrapedCount + (if item.Fetched? then 1 else 0)
    ensures log' == log + ItemLog(scrapedCount, planned, item)
  {
    postsData', scrapedCount', log' := postsData, scrapedCount, log + [Jitter];
    match item {
      case Fetched(p) =>
        postsData' := postsData' + [BuildRecord(target, p)];
        scrapedCount' := scrapedCount' + 1;
        if scrapedCount' % ProgressEvery == 0 {
          log' := log' + [Progress(scrapedCount', planned)];
        }
        if scrapedCount' % BreakEvery == 0 {
          log' := log' + [Slept(LongBreak)];
        }
      case Broken(_) =>
        log' := log' + [Slept(FailureCooldown)];
    }
  }

  /** The `for post in profile.get_posts()` loop of `scrape_account`, over the
      posts of the feed; `planned` is `posts_to_scrape`. Only successes are
      appended and counted; a failure is skipped and the loop goes on. */
  method ScrapePosts(target: string, maxPosts: Option<int>, planned: int, items: seq<Item>)
    returns (postsData: seq<PostRecord>, scrapedCount: nat, handled: nat, log: seq<Event>)
    ensures handled == Stop(maxPosts, items)
    ensures postsData == Records(target, items[..handled])
    ensures scrapedCount == |postsData| == SuccessCount(items[..handled])
    ensures log == BatchLog(planned, items[..handled])
    ensures Capped(maxPosts) && maxPosts.value > 0 ==> scrapedCount <= maxPosts.value
  {
    postsData, scrapedCount, log := [], 0, [];
    var i := 0;
    while i < |items|
      invariant 0 <= i <= |items|
      invariant forall j :: 0 <= j < i ==> !CapReached(maxPosts, SuccessCount(items[..j]))
      invariant postsData == Records(target, items[..i])
      invariant scrapedCount == |postsData| == SuccessCount(items[..i])
      invariant log == BatchLog(planned, items[..i])
      invariant Capped(maxPosts) && maxPosts.value > 0 ==> scrapedCount <= maxPosts.value
    {
      if CapReached(maxPosts, scrapedCount) {
        break;
      }
      assert !CapReached(maxPosts, SuccessCount(items[..i]));
      HandleOne(target, planned, items, i);
      postsData, scrapedCount, log := HandleItem(target, planned, items[i], postsData, scrapedCount, log);
      i := i + 1;
    }
    StopIsFirst(maxPosts, items, i);
    handled := i;
  }

  /** `scrape_account` for one target: the profile lookup (an error there gives
      `(None, None)` and nothing else happens), then the post loop. The feed is
      `items` followed by `feedFault`, an error raised when the loop asks for the
      post after the last one; the loop asks for it only if it did not stop at a
      present post. Such an error ends the account as a failure and discards the
      records. */
  method ScrapeAccount(target: string, maxPosts: Option<int>, profile: Result<Profile, string>,
                       items: seq<Item>, feedFault: Option<string>)
    returns (result: AccountResult, log: seq<Event>)
    ensures profile.Failure? ==> result == ScrapeFailed(profile.error) && log == []
    ensures profile.Success? ==>
      var k := Stop(maxPosts, items);
      && log == BatchLog(PostsToScrape(maxPosts, profile.value.mediaCount), items[..k])
      && (k == |items| && feedFault.Some? ==> result == ScrapeFailed(feedFault.value))
      && (!(k == |items| && feedFault.Some?) ==> result == Scraped(Records(target, items[..k]), profile.value))
  {
    if profile.Failure? {
      return ScrapeFailed(profile.error), [];
    }
    var planned := PostsToScrape(maxPosts, profile.value.mediaCount);
    var postsData, scrapedCount, handled;
    postsData, scrapedCount, handled, log := ScrapePosts(target, maxPosts, planned, items);
    if handled == |items| && feedFault.Some? {
      result := ScrapeFailed(feedFault.value);
    } else {
      result := Scraped(postsData, profile.value);
    }
  }

  /** Record building distributes over concatenation of feeds: records keep the
      feed order, and a failed post (`Records(_, [Broken(m)]) == []`) adds none. */
  lemma {:induction false} RecordsAppend(target: string, a: seq<Item>, b: seq<Item>)
    ensures Records(target, a + b) == Records(target, a) + Records(target, b)
    ensures SuccessCount(a + b) == SuccessCount(a) + SuccessCount(b)
    ensures FailureCount(a + b) == FailureCount(a) + FailureCount(b)
    decreases |b|
  {
    if b == [] {
      assert a + b == a;
    } else {
      var b' := b[..|b| - 1];
      assert (a + b)[..|a + b| - 1] == a + b';
      RecordsAppend(target, a, b');
    }
  }

  /** Every handled post is either counted or failed, and the count is the number of records. */
  lemma {:induction false} RecordsCount(target: string, items: seq<Item>)
    ensures |Records(target, items)| == SuccessCount(items)
    ensures SuccessCount(items) + FailureCount(items) == |items|
    ensures (forall i :: 0 <= i < |items| ==> items[i].Fetched?) ==> SuccessCount(items) == |items|
  {
    if items != [] {
      RecordsCount(target, items[..|items| - 1]);
    }
  }

  /** A longer prefix of the feed never has fewer successes, and one more item adds at most one. */
  lemma {:induction false} SuccessCountPrefix(items: seq<Item>, j: nat, k: nat)
    requires j <= k <= |items|
    ensures SuccessCount(items[..j]) <= SuccessCount(items[..k]) <= SuccessCount(items[..j]) + (k - j)
    decreases k - j
  {
    if j < k {
      assert items[..k][..k - 1] == items[..k - 1];
      SuccessCountPrefix(items, j, k - 1);
    }
  }

  /** Where the loop stops: with no cap (`None` or `0`) it handles the whole feed;
      with a negative cap it handles nothing; with a positive cap it collects
      exactly the cap, or every success of the feed if there are fewer. */
  lemma CapOutcome(maxPosts: Option<int>, items: seq<Item>)
    ensures !Capped(maxPosts) ==> Stop(maxPosts, items) == |items|
    ensures Capped(maxPosts) && maxPosts.value < 0 ==> Stop(maxPosts, items) == 0
    ensures Capped(maxPosts) && maxPosts.value > 0 ==>
      SuccessCount(items[..Stop(maxPosts, items)]) ==
        if SuccessCount(items) < maxPosts.value then SuccessCount(items) else maxPosts.value
  {
    var k := Stop(maxPosts, items);
    assert items[..0] == [];
    assert items[..|items|] == items;
    if Capped(maxPosts) && maxPosts.value > 0 {
      SuccessCountPrefix(items, k, |items|);
      if k > 0 {
        SuccessCountPrefix(items, k - 1, k);
      }
    }
  }

  /** The kinds of event the log is counted by. */
  datatype EventKind = JitterKind | SleptKind(seconds: int) | ProgressKind

  predicate IsKind(e: Event, kind: EventKind)
  {
    match kind
    case JitterKind => e.Jitter?
    case SleptKind(s) => e == Slept(s)
    case ProgressKind => e.Progress?
  }

  /** Number of events of one kind in a log. */
  function Count(log: seq<Event>, kind: EventKind): nat
  {
    if log == [] then 0
    else Count(log[..|log| - 1], kind) + (if IsKind(log[|log| - 1], kind) then 1 else 0)
  }

  lemma {:induction false} CountAppend(a: seq<Event>, b: seq<Event>, kind: EventKind)
    ensures Count(a + b, kind) == Count(a, kind) + Count(b, kind)
    decreases |b|
  {
    if b == [] {
      assert a + b == a;
    } else {
      assert (a + b)[..|a + b| - 1] == a + b[..|b| - 1];
      CountAppend(a, b[..|b| - 1], kind);
    }
  }

  /** Multiples of 25 and of 100 up to `c + 1` are those up to `c`, plus one when `c + 1` is one. */
  lemma DivStep(c: nat)
    ensures (c + 1) / ProgressEvery == c / ProgressEvery + (if (c + 1) % ProgressEvery == 0 then 1 else 0)
    ensures (c + 1) / BreakEvery == c / BreakEvery + (if (c + 1) % BreakEvery == 0 then 1 else 0)
  {
  }

  lemma CountSingle(e: Event, kind: EventKind)
    ensures Count([e], kind) == if IsKind(e, kind) then 1 else 0
  {
  }

  /** The events of one item, counted by kind. */
  lemma ItemLogCounts(c: nat, planned: int, item: Item)
    ensures Count(ItemLog(c, planned, item), JitterKind) == 1
    ensures Count(ItemLog(c, planned, item), SleptKind(FailureCooldown)) == if item.Broken? then 1 else 0
    ensures Count(ItemLog(c, planned, item), ProgressKind) ==
      if item.Fetched? && (c + 1) % ProgressEvery == 0 then 1 else 0
    ensures Count(ItemLog(c, planned, item), SleptKind(LongBreak)) ==
      if item.Fetched? && (c + 1) % BreakEvery == 0 then 1 else 0
  {
    var log := ItemLog(c, planned, item);
    var second: seq<Event>, third: seq<Event>;
    if item.Broken? {
      second, third := [Slept(FailureCooldown)], [];
    } else {
      second := if (c + 1) % ProgressEvery == 0 then [Progress(c + 1, planned)] else [];
      third := if (c + 1) % BreakEvery == 0 then [Slept(LongBreak)] else [];
    }
    assert log == [Jitter] + second + third;
    forall kind: EventKind
      ensures Count(log, kind) == Count([Jitter], kind) + Count(second, kind) + Count(third, kind)
    {
      CountAppend([Jitter] + second, third, kind);
      CountAppend([Jitter], second, kind);
    }
    CountSingle(Jitter, JitterKind);
    CountSingle(Jitter, ProgressKind);
    CountSingle(Jitter, SleptKind(FailureCooldown));
    CountSingle(Jitter, SleptKind(LongBreak));
    if second != [] {
      CountSingle(second[0], JitterKind);
      CountSingle(second[0], ProgressKind);
      CountSingle(second[0], SleptKind(FailureCooldown));
      CountSingle(second[0], SleptKind(LongBreak));
    }
    if third != [] {
      CountSingle(third[0], JitterKind);
      CountSingle(third[0], ProgressKind);
      CountSingle(third[0], SleptKind(FailureCooldown));
      CountSingle(third[0], SleptKind(LongBreak));
    }
  }

  /** What the log of a batch adds up to: one random pause per handled post, a
      30 s cooldown per failure, a progress line per multiple of 25 records and a
      60 s break per multiple of 100 records. */
  lemma {:induction false} BatchLogCounts(planned: int, items: seq<Item>)
    ensures Count(BatchLog(planned, items), JitterKind) == |items|
    ensures Count(BatchLog(planned, items), SleptKind(FailureCooldown)) == FailureCount(items)
    ensures Count(BatchLog(planned, items), ProgressKind) == SuccessCount(items) / ProgressEvery
    ensures Count(BatchLog(planned, items), SleptKind(LongBreak)) == SuccessCount(items) / BreakEvery
  {
    if items != [] {
      var init := items[..|items| - 1];
      var c := SuccessCount(init);
      var tail := ItemLog(c, planned, items[|items| - 1]);
      BatchLogCounts(planned, init);
      ItemLogCounts(c, planned, items[|items| - 1]);
      CountAppend(BatchLog(planned, init), tail, JitterKind);
      CountAppend(BatchLog(planned, init), tail, SleptKind(FailureCooldown));
      CountAppend(BatchLog(planned, init), tail, ProgressKind);
      CountAppend(BatchLog(planned, init), tail, SleptKind(LongBreak));
      DivStep(c);
    }
  }

  /** A run of 101 successful posts logs four progress lines and takes the long break once. */
  lemma HundredAndOneSuccesses(planned: int, items: seq<Item>)
    requires |items| == 101
    requires forall i :: 0 <= i < |items| ==> items[i].Fetched?
    ensures Count(BatchLog(planned, items), ProgressKind) == 4
    ensures Count(BatchLog(planned, items), SleptKind(LongBreak)) == 1
  {
    RecordsCount("", items);
    BatchLogCounts(planned, items);
  }
}
