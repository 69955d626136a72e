/**
  The cookie-consent store: one key of the browser's `localStorage` holding the visitor's choice,
  written by `setCookieConsent` and `clearCookieConsent` and read by `getCookieConsent` and the
  three `has*` queries. Storage that refuses reads (a read throws) or writes (a write throws) is
  part of the state; a refused read answers `null` and a refused write is dropped.
 */
module CookieConsent {
  import opened Wrappers

  /** The storage key. */
  const ConsentKey := "autegry_cookie_consent"

  /** `CookieConsentStatus` without its `null`, which `Option` supplies. */
  datatype Status = Accepted | Necessary

  /** The string stored for a choice. */
  function StatusText(s: Status): (t: string)
    ensures t == "accepted" || t == "necessary"
    ensures (t == "accepted") <==> s == Accepted
  {
    match s
    case Accepted => "accepted"
    case Necessary => "necessary"
  }

  /** What a read of the key answers: `null` when the key is absent or reading throws, and
      otherwise the stored string, whatever it is (the cast to the status type checks nothing). */
  function ReadConsent(items: map<string, string>, readable: bool): (r: Option<string>)
    ensures r.Some? <==> readable && ConsentKey in items
    ensures r.Some? ==> r.value == items[ConsentKey]
  {
    if readable && ConsentKey in items then Some(items[ConsentKey]) else None
  }

  /** `consent === 'accepted' || consent === 'necessary'` */
  predicate Given(consent: Option<string>)
  {
    consent == Some("accepted") || consent == Some("necessary")
  }

  predicate AcceptedAll(consent: Option<string>)
  {
    consent == Some("accepted")
  }

  predicate OnlyNecessary(consent: Option<string>)
  {
    consent == Some("necessary")
  }

  /** A choice is given exactly when one of the two choices is, and never both; a stored string
      other than the two counts as no choice. */
  lemma ChoicesExclusive(consent: Option<string>)
    ensures Given(consent) <==> AcceptedAll(consent) || OnlyNecessary(consent)
    ensures !(AcceptedAll(consent) && OnlyNecessary(consent))
    ensures consent.Some? && consent.value != "accepted" && consent.value != "necessary" ==> !Given(consent)
  {
  }

  /** Reading back a stored choice gives it back, and the queries report it. */
  lemma StoredChoiceReadsBack(items: map<string, string>, s: Status)
    ensures ReadConsent(items[ConsentKey := StatusText(s)], true) == Some(StatusText(s))
    ensures Given(ReadConsent(items[ConsentKey := StatusText(s)], true))
    ensures AcceptedAll(ReadConsent(items[ConsentKey := StatusText(s)], true)) <==> s == Accepted
    ensures OnlyNecessary(ReadConsent(items[ConsentKey := StatusText(s)], true)) <==> s == Necessary
  {
  }

  /** Without the key no choice is read, whether or not reading is allowed. */
  lemma RemovedChoiceReadsNull(items: map<string, string>, readable: bool)
    ensures ReadConsent(items - {ConsentKey}, readable) == None
    ensures !Given(ReadConsent(items - {ConsentKey}, readable))
  {
  }

  /** A refused read looks like no choice at all. */
  lemma UnreadableIsNoChoice(items: map<string, string>)
    ensures ReadConsent(items, false) == None && !Given(ReadConsent(items, false))
  {
  }

  /** The browser's `localStorage` as the consent store sees it. */
  class LocalStorage {
    var items: map<string, string>
    /** `false` when `getItem` throws (storage disabled). */
    var readable: bool
    /** `false` when `setItem`/`removeItem` throw (storage disabled or full). */
    var writable: bool

    constructor(items0: map<string, string>, readable0: bool, writable0: bool)
      ensures items == items0 && readable == readable0 && writable == writable0
    {
      items := items0;
      readable := readable0;
      writable := writable0;
    }

    /** `getCookieConsent()` */
    function GetCookieConsent(): Option<string>
      reads this
    {
      ReadConsent(items, readable)
    }

    /** `hasGivenCookieConsent()`: one of the two choices is stored. */
    function HasGivenCookieConsent(): (r: bool)
      reads this
      ensures r <==> HasAcceptedAllCookies() || HasAcceptedOnlyNecessary()
      ensures r <==> readable && ConsentKey in items && items[ConsentKey] in {"accepted", "necessary"}
    {
      ChoicesExclusive(GetCookieConsent());
      Given(GetCookieConsent())
    }

    /** `hasAcceptedAllCookies()`: never true together with the other choice. */
    function HasAcceptedAllCookies(): (r: bool)
      reads this
      ensures r ==> !HasAcceptedOnlyNecessary()
      ensures r <==> readable && ConsentKey in items && items[ConsentKey] == "accepted"
    {
      AcceptedAll(GetCookieConsent())
    }

    /** `hasAcceptedOnlyNecessary()` */
    function HasAcceptedOnlyNecessary(): (r: bool)
      reads this
      ensures r <==> readable && ConsentKey in items && items[ConsentKey] == "necessary"
    {
      OnlyNecessary(GetCookieConsent())
    }

    /** `setCookieConsent(status)`: a choice is stored under the key, `null` removes the key, and
        a refused write leaves the store as it was. No other key is touched. */
    method SetCookieConsent(status: Option<Status>)
      modifies this
      ensures readable == old(readable) && writable == old(writable)
      ensures !writable ==> items == old(items)
      ensures writable && status.None? ==> items == old(items) - {ConsentKey}
      ensures writable && status.Some? ==> items == old(items)[ConsentKey := StatusText(status.value)]
      ensures forall k :: k != ConsentKey ==>
        (k in items <==> k in old(items)) && (k in items ==> items[k] == old(items)[k])
      ensures readable && writable ==>
        GetCookieConsent() == if status.None? then None else Some(StatusText(status.value))
    {
      if writable {
        if status.None? {
          items := items - {ConsentKey};
        } else {
          items := items[ConsentKey := StatusText(status.value)];
        }
      }
    }

    /** `clearCookieConsent()`: the same as setting `null`; afterwards no choice is read unless
        the write was refused. */
    method ClearCookieConsent()
      modifies this
      ensures readable == old(readable) && writable == old(writable)
      ensures items == if writable then old(items) - {ConsentKey} else old(items)
      ensures writable ==> GetCookieConsent() == None && !HasGivenCookieConsent()
    {
      SetCookieConsent(None);
    }
  }
}
