# FIT portal notifier: verified model of the "what's new" bookkeeping

This project models the core of `FITScraper` (`scraper.py`). It logs into the
FIT student portal, reads the announcement list, keeps the announcements
whose id is not yet in the seen list, e-mails them, and appends their ids to
the seen list, which is stored in `seen_notifications.json`.

Modules, one per concern of the source:

- `Wrappers` (`wrappers.dfy`): `Option`, for elements and attributes that may be absent.
- `Text` (`text.dfy`): Python's `str.strip()` and the substring test `marker in text`.
- `Subsequences` (`subsequences.dfy`): generic order-preserving selections
  (`Positions`, `Filter`, `FilterMap`, `ConcatMap`) and their characterising lemmas.
- `Records` (`records.dfy`): an announcement `Item` (what the CSS selectors found in one
  `ul.newslist li`), the `Notification` record, `Build` (one item to at most one record),
  and `GetNotifications`, the loop of `get_notifications`.
- `Diff` (`diff.dfy`): the comprehension of `run` that keeps the records whose id is not in
  the seen list, and the ids appended afterwards.
- `Email` (`email.dfy`): the plain-text body of `send_email`, built by a loop of `+=`.
- `Scraper` (`scraper.dfy`): class `FITScraper` with the two pieces of state the source
  changes: the `seenNotifications` list and the content of the JSON file.
  Its methods are `__init__` (the load), `load_seen_notifications`,
  `save_seen_notifications` and `run`.

`run` takes the text of the login response and the page's items as
parameters, because it cannot perform the POST and GET itself. It returns
the e-mail body handed to the mail transport, or `None` when nothing is
sent. Its contract states the whole new state for the three cases: login
failed, nothing new, and new records found. It also states that the seen
list only grows by appending. It states that a second pass over the same
page finds nothing new. And it states that the in-memory list and the file
stay in agreement (`Persisted`).

Two behaviours of the code to note:

- An announcement whose date element is present but empty gets the id `title + "_"`.
  It does not get `title` alone. The test at scraper.py:71 is whether the element exists,
  and a bs4 element is truthy whenever it exists. See `Records.EmptyDateKeepsSeparator`.
- The seen "set" is a Python list. Membership is list membership. Two records of one fetch
  that share an unseen id are both kept, and both ids are appended.
  See `Diff.DuplicateIdsAreBothKept`.

## Model

| member | source | states |
|---|---|---|
| `Text.Strip` | scraper.py:65-71 | `.strip()` returns a slice `s[i..j]` of its input such that everything before `i` and from `j` on is whitespace (Python's `str.isspace` set), and the slice neither starts nor ends with whitespace |
| `Text.StripIdempotent` | scraper.py:65-71 | stripping an already stripped field changes nothing |
| `Text.StripEmptyIffAllSpace` | scraper.py:65-71 | a stripped field is empty exactly when the element's text is all whitespace |
| `Text.Contains` | scraper.py:47 | `marker in text` holds exactly when the marker occurs at some index of the text |
| `Scraper.LoginSucceeded` | scraper.py:47 | the login counts as successful exactly when `"Obavijesti"` occurs at some index of the response text |
| `Records.TextOr` | scraper.py:66-69 | a missing element gives `""`; a present one gives its text with the leading and trailing whitespace cut off, which is a stripped slice of that text |
| `Records.Build` | scraper.py:63-72 | an item yields a record iff its title element exists. The title is the title element's stripped text. Without a date element the id is the stripped title; with one it is title, `_`, date. A missing date, subject, author or abstract becomes `""`; a present one becomes its element's stripped text. The link is `""` iff `href` is missing or empty, otherwise base URL, `/`, href. All text fields come out stripped |
| `Records.Extract` | scraper.py:56-75 | the records of a page: at most one per item; every record is built from some item, and every titled item's record is among them |
| `Records.GetNotifications` | scraper.py:53-75 | the loop's list of records equals `Extract(items)`, the items' records in page order |
| `Records.ExtractSelectsTitled` | scraper.py:56-73 | there is exactly one record per titled item, in page order: record k is built from the k-th titled item, and untitled items are skipped |
| `Records.NoTitleNoRecords` | scraper.py:54-63 | a page whose items have no title element (including an empty page) yields no record |
| `Records.SameTitleAndDateSameId` | scraper.py:71 | the same title text and date yield the same id, which is how a re-fetched item is recognised |
| `Records.EmptyDateKeepsSeparator` | scraper.py:71 | a present but empty date gives the id `title + "_"`, not `title` |
| `Records.UndatedAndDatedIdsCanCollide` | scraper.py:71 | the id is not injective: an undated item titled `t_d` collides with a dated item titled `t` and dated `d` |
| `Diff.NewNotifications` | scraper.py:114-117 | every kept record is a current record whose id is not in the seen list, and every such record is kept |
| `Diff.Ids` | scraper.py:121 | `[n['id'] for n in new_notifications]`: one id per record, the i-th id being the i-th record's |
| `Diff.NewNotificationsSelectsUnseen` | scraper.py:114-117 | the diff is the order-preserving subsequence of the current records at exactly the positions whose id is not in the seen list |
| `Diff.NothingNewIffAllSeen` | scraper.py:114-119 | the diff is empty iff every current id is already in the seen list |
| `Diff.NewNotificationsOfAppended` | scraper.py:114-121 | filtering against `seen + more` equals filtering against `seen` and then against `more` |
| `Diff.SecondPassFindsNothing` | scraper.py:114-121 | after the new ids are appended, the same records give an empty diff (idempotence of a run) |
| `Diff.AppendedIdsAreUnseen` | scraper.py:114-121 | every id a run appends was absent from the old seen list |
| `Diff.DuplicateIdsAreBothKept` | scraper.py:114-121 | two unseen records sharing an id are both kept and the id is appended twice |
| `Email.Repeat` | scraper.py:94 | `"-" * 50` is a string of exactly 50 dashes |
| `Email.Block` | scraper.py:88-94 | a record's block opens with its title line, closes with the blank line, 50-dash rule and two line breaks, and is 105 characters longer than the six fields together |
| `Email.Body` | scraper.py:86-94 | the body opens with the header `New notifications from FIT:` and a blank line; for no record it is the header alone, otherwise it closes with the last block's separator |
| `Email.SendEmail` | scraper.py:77-94 | nothing is produced for an empty list; otherwise the accumulated body equals `Body(notifications)`: the header, then one block per record in order |
| `Email.BlockLines` | scraper.py:87-94 | a record's block reads back line by line as its six labelled lines (Title, Date, Subject, Author, Abstract, Link), a blank line, the 50-dash rule and two empty lines, so each field is recoverable when it holds no line break |
| `Email.BodyOfAppended` | scraper.py:86-94 | the body for more records extends the body for fewer by their blocks |
| `Email.BlockInBody` | scraper.py:86-94 | the body is the body for the records before k, then record k's block, then the blocks of the later records |
| `Scraper.FITScraper.constructor` | scraper.py:15-20 | the seen list starts as the file's content, or empty when the file is missing, and agrees with the file |
| `Scraper.FITScraper.LoadSeenNotifications` | scraper.py:29-33 | a missing file yields the empty list; an existing one yields its stored list |
| `Scraper.FITScraper.SaveSeenNotifications` | scraper.py:35-37 | the file is overwritten with the whole current list |
| `Scraper.FITScraper.Run` | scraper.py:108-125 | On login failure: no e-mail, and list and file unchanged. With an empty diff: no e-mail, and list and file unchanged. Otherwise: the e-mail body of the new records, the list becomes old list + new ids in order, and the file is saved. In all cases the old list is a prefix of the new one. After a successful login the same page has nothing new. Agreement between list and file is preserved |

## Left out

- The HTTP session, the login POST and the page GET are network I/O. `Run` takes the login response text and the page's items as parameters instead.
- BeautifulSoup parsing, the CSS selectors and `.text` are left out as an external library. An `Item` holds, per selector, the raw text of the element found, or `None`.
- SMTP delivery, MIME assembly, the sender and recipient headers and the exception handling around delivery are left out as network I/O. The model has no delivery result, so the state update does not depend on delivery, as in the source.
- The subject line with `datetime.now()` is left out because it depends on the clock.
- The JSON file's reading and writing, and `os.path.exists`, are file I/O. The file is a field holding `None` (missing) or the stored list of ids. A file holding anything other than a list of strings is not modelled.
- Environment variables, `load_dotenv`, the credentials in the login form, console output and the `__main__` entry point are configuration and glue.
