# instaMoms: a verified model of the scraper's control logic

The repository logs in to Instagram through a browser, turns the browser's
cookies into a session for the `instaloader` library, and scrapes profile and
post metadata into JSON and CSV files. Almost all of it is calls into those two
libraries and file output. This project models, in Dafny, the sequential control
logic that sits between those calls, and proves what it guarantees:

- **Login retry loop** (`Login`): `_safe_login` tries the library's login at
  most three times. It sleeps 60 s after each failed attempt except the last,
  and it stops at the first success. It saves the session only after a success,
  and only when a session file was given. An error whose text mentions
  "checkpoint" logs a hint and does not end the loop.
- **Post records** (`Posts`): the dictionary `scrape_account` builds for each
  post. Its counts, media type, caption length, URL and engagement score are
  derived from the post's fields.
- **Per-account batch loop** (`Batch`): the loop over the profile's post feed.
  It has an optional cap (`max_posts`; `None` and `0` both mean no cap). Only
  successes are appended and counted. A failed post is skipped after a 30 s
  cooldown. A progress line is logged at every 25th record and a 60 s break is
  taken at every 100th.
- **Multi-account summary** (`Summary`): the main block's `results`
  dictionary, the summary table rows, the success tally and the post total.
- **Cookie conversion** (`Cookies`): the dictionary comprehension that keeps
  cookies of `instagram.com` domains, with later cookies overwriting earlier
  ones. The conversion fails unless `sessionid`, `ds_user_id` and `csrftoken`
  are all present. It then copies exactly those three into the HTTP session's
  cookie jar.

The libraries are abstracted as data:
- Each pass of `_safe_login`'s `try` block (`login`, then saving the session
  when a session file was given) is one `Attempt` of a sequence. A save that
  raises after a successful login is a failed `Attempt`, retried like a refused
  login.
- Each post of the feed is one `Item`: a post, or a post whose fields raised.
- An error the feed raises after its last post is a `feedFault`.
- `Profile.from_username` is a `Result`.
- Fixed sleeps are recorded in logs as whole seconds. Random pauses are recorded
  only as events, without a length.

A checkpoint challenge needs a manual verification, which no retry can resolve,
so one might expect it to end the retries at once. The code does not do that: it
only logs a hint and keeps retrying. The model follows the code
(`Login.SafeLogin`).

Some behaviours of the code that the model states explicitly:
- The cap is checked against the number of successes, not the number of posts
  read. A run with failures can therefore read more posts than the cap.
- A negative `max_posts` is truthy, so the loop stops before the first post
  (`Batch.CapOutcome`).
- `for post in profile.get_posts()` asks the feed for the next post before the
  cap is checked. A feed error after the last post is therefore hit whenever the
  loop did not stop at a present post. Such an error turns the whole account
  into a failure (`Batch.ScrapeAccount`).
- `if posts_data:` treats an account that returned no posts as failed
  (`Summary.EntryOf`).

## Model

| member | source | states |
|---|---|---|
| `Text.ContainsIff` | src/scraper.py:75 | The substring test used for `"checkpoint" in ...` and `'instagram.com' in ...` holds exactly when the text occurs at some position |
| `Login.CheckpointHints` | src/scraper.py:74-76 | The checkpoint hints are exactly the failed attempts whose text mentions "checkpoint" in any letter case, listed in increasing attempt order |
| `Login.SafeLogin` | src/scraper.py:63-80 | At most 3 attempts, all before the last one failed; the result is true iff some attempt of the three succeeds; all-fail means exactly 3 attempts; exactly attempts-1 sleeps of 60 s (2 when all fail, none after the last); checkpoint errors do not stop the loop; the session is saved iff an attempt's login and save both returned and a session file was given; a save that raises counts as a failed attempt |
| `Posts.BuildRecord` | src/scraper.py:111-133 | Every record is consistent: hashtag/mention/tagged counts equal the list lengths, caption length is 0 for an absent or empty caption, engagement = likes + comments, media type is Video iff the post is a video, no view count for a non-video, URL built from the shortcode; the record names the target account, and the post can be read back out of it, except a non-video's view count |
| `Batch.PostsToScrape` | src/scraper.py:100 | With a truthy cap, the planned total is the minimum of the cap and the profile's post count; otherwise it is the post count (a cap of 0 counts as no cap) |
| `Batch.StopFrom` | src/scraper.py:106-108 | The loop stops at the first position where the feed ends or the number of successes so far has reached a truthy cap |
| `Batch.Stop` | src/scraper.py:106-108 | The number of posts the loop handles: it stops at the end of the feed or once the cap is reached, and at no earlier position |
| `Batch.HandleItem` | src/scraper.py:109-147 | One pass of the loop body: a success appends exactly its record and adds one to the count; a failure appends nothing and leaves the count unchanged; the events added are that post's share of the log |
| `Batch.ScrapePosts` | src/scraper.py:103-147 | The loop handles exactly `Stop` posts; `posts_data` is the records of the successful ones in feed order; `scraped_count == len(posts_data)`; a positive cap is never exceeded; the event log is the per-post log of the handled posts |
| `Batch.ScrapeAccount` | src/scraper.py:82-155 | A failed profile lookup gives `(None, None)` and no events; a feed error reached by the loop gives a failure; otherwise the result is the records of the handled posts and the profile |
| `Batch.RecordsAppend` | src/scraper.py:134-135 | Records, success counts and failure counts distribute over concatenated feeds, so records keep the feed order and a failed post adds no record and no count |
| `Batch.RecordsCount` | src/scraper.py:134-135 | The number of records equals the number of successes; every handled post is either a success or a failure |
| `Batch.SuccessCountPrefix` | src/scraper.py:135 | Successes never decrease along the feed and grow by at most one per post |
| `Batch.CapOutcome` | src/scraper.py:106-108 | With no cap (`None` or `0`) the whole feed is handled; with a negative cap nothing is handled; with a positive cap the loop collects exactly `min(cap, successes in the feed)` records |
| `Batch.ItemLogCounts` | src/scraper.py:110-146 | Each handled post makes exactly one random pause; a failure makes one 30 s cooldown; a success makes a progress line iff the new count is a multiple of 25, and a 60 s break iff it is a multiple of 100 |
| `Batch.BatchLogCounts` | src/scraper.py:137-146 | Over a batch: pauses = posts handled, 30 s cooldowns = failures, progress lines = successes / 25, 60 s breaks = successes / 100 |
| `Batch.HundredAndOneSuccesses` | src/scraper.py:137-142 | 101 successful posts give exactly 4 progress lines and exactly one 60 s break |
| `Summary.EntryOf` | src/scraper.py:231-239 | An account's entry is a success iff its scrape returned a non-empty post list, and then it carries that list's length and the profile's follower count |
| `Summary.Put` | src/scraper.py:232-239 | Dictionary assignment: the key set gains the key; a new key is appended at the end; an existing key keeps its place and takes the new entry, with every other entry unchanged; the pair is in the result |
| `Summary.PutDistinct` | src/scraper.py:232-239 | Assignment never makes a key appear twice |
| `Summary.ResultsOfKeysDistinct` | src/scraper.py:222-239 | Whatever the account list, the `results` dictionary holds each name at most once |
| `Summary.CollectResults` | src/scraper.py:222-245 | The loop builds the dictionary of all accounts' entries and waits between accounts, never after the last (`len - 1` waits) |
| `Summary.ResultsOfDistinct` | src/scraper.py:222-239 | With distinct account names, the dictionary has one entry per account, in order, holding that account's own scrape result |
| `Summary.RowOf` | src/scraper.py:250-255 | A row carries the account name and has status `'success'` iff the entry succeeded; a successful account shows its `posts_count` and its follower count; a failed account shows `posts_scraped = 0`, status `'failed'` and no follower count |
| `Summary.SummaryRows` | src/scraper.py:248-255 | One summary row per dictionary entry, in dictionary order |
| `Summary.SummaryTotals` | src/scraper.py:263-264 | With distinct account names, the printed success tally is the number of scrapes that returned posts, and the printed total is the number of posts returned |
| `Summary.RowsMatchTotals` | src/scraper.py:249-264 | The summary table's `'success'` rows number the printed tally, and its `posts_scraped` column sums to the printed total |
| `Cookies.CookieDictKeys` | src/convert_cookies.py:11 | A name is in the filtered dictionary iff some cookie with that name has a domain containing `instagram.com` |
| `Cookies.CookieDictLastWins` | src/convert_cookies.py:11 | The value for a name is that of the last kept cookie with that name |
| `Cookies.HasRequiredIff` | src/convert_cookies.py:12-13 | The required check passes iff `sessionid`, `ds_user_id` and `csrftoken` are all in the filtered dictionary |
| `Cookies.WithoutMembers` | src/convert_cookies.py:18 | Replacing a cookie in the jar first removes exactly the cookies with that name and domain and keeps all others |
| `Cookies.ReplaceUnique` | src/convert_cookies.py:18 | Setting a cookie keeps the jar free of two cookies with the same name and domain |
| `Cookies.CookieJar.constructor` | src/convert_cookies.py:16 | A new session's jar is empty and valid |
| `Cookies.CookieJar.Set` | src/convert_cookies.py:18 | `cookies.set` replaces the cookie with the same name and domain and keeps the jar valid |
| `Cookies.InstallRequired` | src/convert_cookies.py:17-18 | The `for key in required` loop sets the three required cookies in order, each with its dictionary value on `.instagram.com` |
| `Cookies.InstallEffect` | src/convert_cookies.py:16-18 | On any jar, installing drops the jar's own cookies with those three names on `.instagram.com` and then appends exactly `sessionid`, `ds_user_id`, `csrftoken` in that order with the dictionary's values; no other cookie is added |
| `Cookies.ConvertCookies` | src/convert_cookies.py:7-24 | A missing required cookie fails with "Missing required cookies" whatever the profile lookup would answer, so the check comes before any jar change or lookup; otherwise a lookup error propagates; otherwise the converted library context holds the profile's name and id and exactly the three required cookies, in the order they were set |

## Left out

- `src/ig_playwright_login.py` and `main.py`: browser automation, input prompts, file deletion and subprocess chaining are I/O with no logic of their own.
- `RandomRateController.wait_before_query` (src/scraper.py:24-27): a random floating-point delay handed to the library's rate-control hook. No decision of the code depends on it.
- Random pauses: the 3 to 5 s pause before each post (src/scraper.py:110) is modelled only as a `Jitter` event. The 15 to 30 s wait between accounts (src/scraper.py:242-245) is modelled only as a count. Their lengths and real time are not modelled.
- `EnhancedInstagramScraper.__init__` (src/scraper.py:31-61): building the library client, loading a session file, and choosing between that and `_safe_login`. These are library calls.
- `Login.SafeLogin`: the `try` block's `login` and `save_session_to_file` are one outcome per attempt, from a sequence of at least three, and only the text of a raised exception is kept. Which of the two calls raised is not distinguished. Logging and session saving are reported as outputs, not performed.
- `Login.IsCheckpoint`: only ASCII letters are lower-cased. Python's `str.lower()` also folds other letters, so a checkpoint message written with non-ASCII capitals is not modelled.
- `_save_account_data` (src/scraper.py:157-179): JSON and CSV writing and timestamps. An exception raised while saving, which would also make `scrape_account` return `(None, None)`, is not modelled.
- `Posts.BuildRecord`: the post timestamp is whole seconds (the source has a float), and the `scraped_at` time of `profile_info` is left out. The `list(...) if ... else []` guards on hashtags and mentions are identities on the lists the library returns.
- The main block's argument check, first login test and test scrape (src/scraper.py:186-220, 266-268), and its printed messages: these are orchestration and console output.
- `Summary.SummaryTotals`: stated for distinct account names, which the constant account list has. With repeated names, the dictionary keeps one entry per name (`Summary.ResultsOfKeysDistinct`), holding the last scrape's entry at the name's first position (`Summary.Put`).
- Cookie file parsing: the JSON file and cookie records that lack a `name`, `value` or `domain` field, which would raise a `KeyError`.
- `Cookies.ConvertCookies`: the jar of a new library session starts empty here. Any default cookies the library puts into a new session are library internals. `Cookies.InstallEffect` states the effect on any jar. Only a cookie's name, value and domain are modelled; path and expiry are not. The jar is a sequence in the order of the `set` calls, an abstraction of the library's cookie jar. Writing the session file and printing are left out.
