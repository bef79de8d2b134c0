/**
 * The `FITScraper` object and its `run`: log in, read the announcement
 * items, keep those whose id is not in the seen list, e-mail them, append
 * their ids to the seen list and write the list back to its JSON file.
 * The login POST and the page GET are replaced by their results (the text
 * of the login response and the items of the announcements page); the
 * JSON file is a field holding its content, `None` when the file is missing.
 */
module Scraper {

  import opened Wrappers
  import opened Text
  import opened Records
  import opened Diff
  import opened Email

  /** The text whose presence in the login response means the login worked. */
  const LoginMarker: string := "Obavijesti"

  /** `login()`'s verdict on the response to the credentials POST. */
  function LoginSucceeded(response: string): (r: bool)
    ensures r <==> exists i :: OccursAt(response, LoginMarker, i)
  {
    Contains(response, LoginMarker)
  }

  class FITScraper {
    /** `self.seen_notifications`: the ids already e-mailed, in the order they were added. */
    var seenNotifications: seq<string>
    /** The content of `seen_notifications.json`; `None` when the file does not exist. */
    var notificationsFile: Option<seq<string>>

    /** The list in memory is what the file would give back if it were loaded now. */
    ghost predicate Persisted()
      reads this
    {
      match notificationsFile
      case None => seenNotifications == []
      case Some(ids) => ids == seenNotifications
    }

    /** `__init__`: the seen list is loaded from the file as it is found. */
    constructor (file: Option<seq<string>>)
      ensures notificationsFile == file
      ensures file.None? ==> seenNotifications == []
      ensures file.Some? ==> seenNotifications == file.value
      ensures Persisted()
    {
      notificationsFile := file;
      new;
      seenNotifications := LoadSeenNotifications();
    }

    /** `load_seen_notifications`: a missing file means nothing has been seen yet. */
    method LoadSeenNotifications() returns (ids: seq<string>)
      ensures notificationsFile.None? ==> ids == []
      ensures notificationsFile.Some? ==> ids == notificationsFile.value
    {
      match notificationsFile
      case None =>
        ids := [];
      case Some(stored) =>
        ids := stored;
    }

    /** `save_seen_notifications`: the file is overwritten with the whole list. */
    method SaveSeenNotifications()
      modifies this`notificationsFile
      ensures notificationsFile == Some(seenNotifications)
      ensures Persisted()
    {
      notificationsFile := Some(seenNotifications);
    }

    /**
     * `run`, given the text of the login response and the items of the
     * announcements page.  The result is the e-mail body handed to the mail
     * transport, `None` when no e-mail is sent.
     */
    method Run(loginResponse: string, page: seq<Item>) returns (email: Option<string>)
      modifies this
      ensures !LoginSucceeded(loginResponse) ==>
                email.None? && seenNotifications == old(seenNotifications) && notificationsFile == old(notificationsFile)
      ensures LoginSucceeded(loginResponse) && NewNotifications(Extract(page), old(seenNotifications)) == [] ==>
                email.None? && seenNotifications == old(seenNotifications) && notificationsFile == old(notificationsFile)
      ensures LoginSucceeded(loginResponse) && NewNotifications(Extract(page), old(seenNotifications)) != [] ==>
                var added := NewNotifications(Extract(page), old(seenNotifications));
                && email == Some(Body(added))
                && seenNotifications == old(seenNotifications) + Ids(added)
                && notificationsFile == Some(seenNotifications)
      ensures old(seenNotifications) <= seenNotifications
      ensures LoginSucceeded(loginResponse) ==> NewNotifications(Extract(page), seenNotifications) == []
      ensures old(Persisted()) ==> Persisted()
    {
      if !LoginSucceeded(loginResponse) {
        return None;
      }
      var current := GetNotifications(page);
      var added := NewNotifications(current, seenNotifications);
      email := None;
      if added != [] {
        email := SendEmail(added);
        SecondPassFindsNothing(current, seenNotifications);
        seenNotifications := seenNotifications + Ids(added);
        SaveSeenNotifications();
      }
    }
  }
}
