/** The in-memory credential store: a map from origin key to the credentials
    saved for it, in save order. */
module LoginsManager {
  import opened Optional

  /** A saved login; the password may be null. */
  datatype Credentials = Credentials(username: string, password: Option<string>)

  /** The two URL accessors the origin key is built from.  Both are defined
      outside this model and may be null, so they are taken as parameters. */
  datatype UriParser = UriParser(scheme: string -> Option<string>, domain: string -> Option<string>)

  type DataStore = map<string, seq<Credentials>>

  /** How a string template renders a nullable string. */
  function Render(s: Option<string>): string {
    s.GetOr("null")
  }

  const Separator: string := "://"

  /** The key credentials are stored under: scheme, `://`, domain. */
  function DetermineOrigin(uri: UriParser, url: string): (key: string)
    ensures |key| == |Render(uri.scheme(url))| + |Separator| + |Render(uri.domain(url))|
    ensures key[..|Render(uri.scheme(url))|] == Render(uri.scheme(url))
    ensures key[|Render(uri.scheme(url))|..][..|Separator|] == Separator
    ensures key[|Render(uri.scheme(url))| + |Separator|..] == Render(uri.domain(url))
  {
    var scheme := Render(uri.scheme(url));
    var key := scheme + Separator + Render(uri.domain(url));
    assert key[|scheme|..] == Separator + Render(uri.domain(url));
    key
  }

  /** Two URLs with the same scheme and domain share one key, whatever else differs. */
  lemma SameSchemeAndDomainSameOrigin(uri: UriParser, a: string, b: string)
    requires uri.scheme(a) == uri.scheme(b) && uri.domain(a) == uri.domain(b)
    ensures DetermineOrigin(uri, a) == DetermineOrigin(uri, b)
  {
  }

  /** For URLs with the same scheme, the keys agree exactly when the rendered
      domains do. */
  lemma SameSchemeKeysAgreeIffDomainsAgree(uri: UriParser, a: string, b: string)
    requires uri.scheme(a) == uri.scheme(b)
    ensures DetermineOrigin(uri, a) == DetermineOrigin(uri, b)
            <==> Render(uri.domain(a)) == Render(uri.domain(b))
  {
    var n := |Render(uri.scheme(a))| + |Separator|;
    if DetermineOrigin(uri, a) == DetermineOrigin(uri, b) {
      assert DetermineOrigin(uri, a)[n..] == DetermineOrigin(uri, b)[n..];
    }
  }

  /** A URL without a domain shares its key, and so its saved logins, with a
      URL whose domain is the literal text `null`. */
  lemma NullDomainCollidesWithLiteralNull(uri: UriParser, a: string, b: string)
    requires uri.scheme(a) == uri.scheme(b)
    requires uri.domain(a) == None && uri.domain(b) == Some("null")
    ensures DetermineOrigin(uri, a) == DetermineOrigin(uri, b)
    ensures forall store: DataStore :: GetCredentials(uri, store, a) == GetCredentials(uri, store, b)
  {
    SameSchemeKeysAgreeIffDomainsAgree(uri, a, b);
  }

  /** The credentials saved for the origin of `url`; empty when none were. */
  function GetCredentials(uri: UriParser, store: DataStore, url: string): (r: seq<Credentials>)
    ensures DetermineOrigin(uri, url) !in store ==> r == []
    ensures DetermineOrigin(uri, url) in store ==> r == store[DetermineOrigin(uri, url)]
  {
    var saved := if DetermineOrigin(uri, url) in store then Some(store[DetermineOrigin(uri, url)]) else None;
    if saved.None? || |saved.value| == 0 then [] else saved.value
  }

  /** The guard of `saveCredentials`: empty username and null or empty password. */
  predicate IsEmptyLogin(username: string, password: Option<string>) {
    username == "" && (password.None? || password.value == "")
  }

  /** Saves a login under the origin of `url`, after those already there.  An empty
      login is ignored.  Nothing is deduplicated. */
  function SaveCredentials(uri: UriParser, store: DataStore, url: string, username: string, password: Option<string>): (store': DataStore)
    ensures IsEmptyLogin(username, password) ==> store' == store
    ensures !IsEmptyLogin(username, password) ==>
              var key := DetermineOrigin(uri, url);
              && store'.Keys == store.Keys + {key}
              && store'[key] == GetCredentials(uri, store, url) + [Credentials(username, password)]
              && forall other :: other in store && other != key ==> store'[other] == store[other]
  {
    if IsEmptyLogin(username, password) then store
    else
      var key := DetermineOrigin(uri, url);
      var creds := Credentials(username, password);
      if key !in store then store[key := [creds]]
      else store[key := store[key] + [creds]]
  }

  /** Every stored list is non-empty and holds no empty login. */
  ghost predicate Valid(store: DataStore) {
    forall key :: key in store ==>
      |store[key]| > 0 && forall c :: c in store[key] ==> !IsEmptyLogin(c.username, c.password)
  }

  /** Saving keeps the store valid, starting from the empty store. */
  lemma SavePreservesValid(uri: UriParser, store: DataStore, url: string, username: string, password: Option<string>)
    requires Valid(store)
    ensures Valid(SaveCredentials(uri, store, url, username, password))
    ensures Valid(map[])
  {
  }

  /** In a valid store, nothing is found for a URL exactly when nothing was
      stored under its key. */
  lemma GetEmptyIffNoKey(uri: UriParser, store: DataStore, url: string)
    requires Valid(store)
    ensures GetCredentials(uri, store, url) == [] <==> DetermineOrigin(uri, url) !in store
  {
  }

  /** After a save, a lookup sees the new login at the end exactly when the two
      URLs share an origin key and the login passed the guard; earlier entries
      keep their order. */
  lemma GetAfterSave(uri: UriParser, store: DataStore, url: string, username: string, password: Option<string>, url2: string)
    ensures GetCredentials(uri, SaveCredentials(uri, store, url, username, password), url2)
            == GetCredentials(uri, store, url2)
               + (if !IsEmptyLogin(username, password) && DetermineOrigin(uri, url2) == DetermineOrigin(uri, url)
                  then [Credentials(username, password)] else [])
  {
  }

  /** Saving the same login twice stores it twice. */
  lemma SaveTwiceKeepsDuplicates(uri: UriParser, store: DataStore, url: string, username: string, password: Option<string>)
    requires !IsEmptyLogin(username, password)
    ensures var c := Credentials(username, password);
            GetCredentials(uri, SaveCredentials(uri, SaveCredentials(uri, store, url, username, password), url, username, password), url)
            == GetCredentials(uri, store, url) + [c, c]
  {
  }

  /** A login with only a password, or only a username and a null password, is stored. */
  lemma PartialLoginsAreStored(uri: UriParser, store: DataStore, url: string, username: string, password: string)
    requires username != "" && password != ""
    ensures var s := SaveCredentials(uri, store, url, "", Some(password));
            GetCredentials(uri, s, url) == GetCredentials(uri, store, url) + [Credentials("", Some(password))]
    ensures var s := SaveCredentials(uri, store, url, username, None);
            GetCredentials(uri, s, url) == GetCredentials(uri, store, url) + [Credentials(username, None)]
  {
  }
}
