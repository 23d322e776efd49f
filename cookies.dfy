/** `convert_cookies`: keep the browser cookies whose domain mentions
    `instagram.com` (a dictionary from name to value, later cookies overwriting
    earlier ones), refuse unless the three session cookies are present, copy
    exactly those three into the scraping library's cookie jar, then look the
    user up and save the session. */
module Cookies {
  import opened Wrappers
  import opened Text

  /** One record of the browser's cookie file (only the fields read here). */
  datatype Cookie = Cookie(name: string, value: string, domain: string)

  /** One cookie held by the library's HTTP session. The jar is a sequence in the
      order of the `set` calls, an abstraction of the library's cookie jar. */
  datatype JarCookie = JarCookie(name: string, value: string, domain: string)

  /** The library context after conversion: the looked-up profile's name and id
      and the session's cookie jar. */
  datatype Session = Session(username: string, userid: int, cookies: seq<JarCookie>)

  const DomainMarker: string := "instagram.com"
  const SessionDomain: string := ".instagram.com"
  const Required: seq<string> := ["sessionid", "ds_user_id", "csrftoken"]
  const MissingMessage: string := "\U{274C} Missing required cookies."

  predicate FromInstagram(c: Cookie)
  {
    Contains(c.domain, DomainMarker)
  }

  /** `{c['name']: c['value'] for c in cookies if 'instagram.com' in c['domain']}`. */
  function CookieDict(cookies: seq<Cookie>): map<string, string>
  {
    if cookies == [] then map[]
    else
      var c := cookies[|cookies| - 1];
      var earlier := CookieDict(cookies[..|cookies| - 1]);
      if FromInstagram(c) then earlier[c.name := c.value] else earlier
  }

  /** The dictionary's names are exactly the names of the kept cookies. */
  lemma {:induction false} CookieDictKeys(cookies: seq<Cookie>, name: string)
    ensures name in CookieDict(cookies) <==>
      exists i :: 0 <= i < |cookies| && FromInstagram(cookies[i]) && cookies[i].name == name
  {
    if cookies != [] {
      var n := |cookies| - 1;
      CookieDictKeys(cookies[..n], name);
      assert forall i :: 0 <= i < n ==> cookies[..n][i] == cookies[i];
    }
  }

  /** Of several kept cookies with one name, the last in list order gives the value. */
  lemma {:induction false} CookieDictLastWins(cookies: seq<Cookie>, i: nat)
    requires i < |cookies| && FromInstagram(cookies[i])
    requires forall j :: i < j < |cookies| && FromInstagram(cookies[j]) ==> cookies[j].name != cookies[i].name
    ensures cookies[i].name in CookieDict(cookies) && CookieDict(cookies)[cookies[i].name] == cookies[i].value
  {
    var n := |cookies| - 1;
    if i < n {
      CookieDictLastWins(cookies[..n], i);
    }
  }

  /** `all(k in cookie_dict for k in required)`. */
  predicate HasRequired(dict: map<string, string>)
  {
    forall k :: k in Required ==> k in dict
  }

  lemma HasRequiredIff(dict: map<string, string>)
    ensures HasRequired(dict) <==> "sessionid" in dict && "ds_user_id" in dict && "csrftoken" in dict
  {
  }

  /** The three session cookies, in the order they are set, on the session domain. */
  function RequiredCookies(dict: map<string, string>): seq<JarCookie>
    requires HasRequired(dict)
  {
    seq(|Required|, i requires 0 <= i < |Required| => JarCookie(Required[i], dict[Required[i]], SessionDomain))
  }

  /** The jar without its cookie of this name and domain. */
  function Without(cs: seq<JarCookie>, name: string, domain: string): seq<JarCookie>
  {
    if cs == [] then []
    else
      var last := cs[|cs| - 1];
      Without(cs[..|cs| - 1], name, domain) + (if last.name == name && last.domain == domain then [] else [last])
  }

  /** Removal keeps every other cookie and drops every cookie of that name and domain. */
  lemma {:induction false} WithoutMembers(cs: seq<JarCookie>, name: string, domain: string)
    ensures forall c :: c in Without(cs, name, domain) <==> c in cs && !(c.name == name && c.domain == domain)
  {
    if cs != [] {
      var n := |cs| - 1;
      WithoutMembers(cs[..n], name, domain);
      assert cs == cs[..n] + [cs[n]];
    }
  }

  /** A jar holds at most one cookie per name and domain. */
  predicate Unique(cs: seq<JarCookie>)
  {
    forall i, j :: 0 <= i < j < |cs| ==> !(cs[i].name == cs[j].name && cs[i].domain == cs[j].domain)
  }

  /** `cookies.set(name, value, domain=...)`: the cookie replaces any with the same
      name and domain. */
  function Replace(cs: seq<JarCookie>, c: JarCookie): seq<JarCookie>
  {
    Without(cs, c.name, c.domain) + [c]
  }

  /** Removing a key keeps the jar free of duplicates. */
  lemma {:induction false} WithoutUnique(cs: seq<JarCookie>, name: string, domain: string)
    requires Unique(cs)
    ensures Unique(Without(cs, name, domain))
  {
    if cs != [] {
      var n := |cs| - 1;
      var init := cs[..n];
      assert Unique(init);
      WithoutUnique(init, name, domain);
      WithoutMembers(init, name, domain);
      var w := Without(init, name, domain);
      forall i | 0 <= i < |w|
        ensures !(w[i].name == cs[n].name && w[i].domain == cs[n].domain)
      {
        assert w[i] in w;
      }
    }
  }

  /** `set` keeps the jar free of duplicates. */
  lemma ReplaceUnique(cs: seq<JarCookie>, c: JarCookie)
    requires Unique(cs)
    ensures Unique(Replace(cs, c))
  {
    WithoutUnique(cs, c.name, c.domain);
    WithoutMembers(cs, c.name, c.domain);
    var w := Without(cs, c.name, c.domain);
    forall i | 0 <= i < |w|
      ensures !(w[i].name == c.name && w[i].domain == c.domain)
    {
      assert w[i] in w;
    }
  }

  /** The HTTP session's cookie jar. */
  class CookieJar {
    var cookies: seq<JarCookie>

    ghost predicate Valid()
      reads this
    {
      Unique(cookies)
    }

    constructor ()
      ensures Valid() && cookies == []
    {
      cookies := [];
    }

    method Set(name: string, value: string, domain: string)
      requires Valid()
      modifies this
      ensures Valid()
      ensures cookies == Replace(old(cookies), JarCookie(name, value, domain))
    {
      ReplaceUnique(cookies, JarCookie(name, value, domain));
      cookies := Replace(cookies, JarCookie(name, value, domain));
    }
  }

  /** The jar after setting `news` one after the other. */
  function SetAll(cs: seq<JarCookie>, news: seq<JarCookie>): seq<JarCookie>
  {
    if news == [] then cs else Replace(SetAll(cs, news[..|news| - 1]), news[|news| - 1])
  }

  /** `for key in required: cookies.set(key, cookie_dict[key], domain='.instagram.com')`. */
  method InstallRequired(jar: CookieJar, dict: map<string, string>)
    requires jar.Valid() && HasRequired(dict)
    modifies jar
    ensures jar.Valid()
    ensures jar.cookies == SetAll(old(jar.cookies), RequiredCookies(dict))
  {
    var wanted := RequiredCookies(dict);
    var i := 0;
    while i < |Required|
      invariant 0 <= i <= |Required|
      invariant jar.Valid()
      invariant jar.cookies == SetAll(old(jar.cookies), wanted[..i])
    {
      var key := Required[i];
      jar.Set(key, dict[key], SessionDomain);
      assert wanted[..i + 1][..i] == wanted[..i];
      i := i + 1;
    }
    assert wanted[..i] == wanted;
  }

  lemma WithoutAppend(cs: seq<JarCookie>, c: JarCookie, name: string, domain: string)
    requires !(c.name == name && c.domain == domain)
    ensures Without(cs + [c], name, domain) == Without(cs, name, domain) + [c]
  {
  }

  /** What installing the session cookies does to any jar: it drops the jar's own
      cookies with those three names on the session domain and appends the three,
      in the order `sessionid`, `ds_user_id`, `csrftoken`, with the dictionary's
      values; nothing else is added. */
  lemma InstallEffect(cs: seq<JarCookie>, dict: map<string, string>)
    requires HasRequired(dict)
    ensures SetAll(cs, RequiredCookies(dict)) ==
      Without(Without(Without(cs, "sessionid", SessionDomain), "ds_user_id", SessionDomain), "csrftoken", SessionDomain)
        + RequiredCookies(dict)
  {
    var r := RequiredCookies(dict);
    var a := JarCookie("sessionid", dict["sessionid"], SessionDomain);
    var b := JarCookie("ds_user_id", dict["ds_user_id"], SessionDomain);
    var c := JarCookie("csrftoken", dict["csrftoken"], SessionDomain);
    assert r == [a, b, c];
    InstallThree(cs, a, b, c);
  }

  /** Setting three cookies with distinct names on one domain. */
  lemma InstallThree(cs: seq<JarCookie>, a: JarCookie, b: JarCookie, c: JarCookie)
    requires a.domain == b.domain == c.domain
    requires a.name != b.name && a.name != c.name && b.name != c.name
    ensures SetAll(cs, [a, b, c]) ==
      Without(Without(Without(cs, a.name, a.domain), b.name, b.domain), c.name, c.domain) + [a, b, c]
  {
    var w0 := Without(cs, a.name, a.domain);
    var w1 := Without(w0, b.name, b.domain);
    var w2 := Without(w1, c.name, c.domain);
    assert SetAll(cs, [a]) == w0 + [a] by {
      assert [a][..0] == [];
    }
    assert SetAll(cs, [a, b]) == w1 + [a, b] by {
      assert [a, b][..1] == [a];
      WithoutAppend(w0, a, b.name, b.domain);
    }
    assert [a, b, c][..2] == [a, b];
    assert Without(w1 + [a, b], c.name, c.domain) == w2 + [a, b] by {
      WithoutAppend(w1 + [a], b, c.name, c.domain);
      WithoutAppend(w1, a, c.name, c.domain);
      assert w1 + [a, b] == (w1 + [a]) + [b];
    }
  }

  /** `convert_cookies`: `lookup` is what `Profile.from_username` answers once the
      jar is set up (the profile's name and numeric id, or the error it raises). */
  method ConvertCookies(cookies: seq<Cookie>, lookup: Result<(string, int), string>)
    returns (r: Result<Session, string>)
    ensures !HasRequired(CookieDict(cookies)) ==> r == Failure(MissingMessage)
    ensures HasRequired(CookieDict(cookies)) && lookup.Failure? ==> r == Failure(lookup.error)
    ensures HasRequired(CookieDict(cookies)) && lookup.Success? ==>
      r == Success(Session(lookup.value.0, lookup.value.1, RequiredCookies(CookieDict(cookies))))
  {
    var dict := CookieDict(cookies);
    if !HasRequired(dict) {
      return Failure(MissingMessage);
    }
    var jar := new CookieJar();
    InstallRequired(jar, dict);
    InstallEffect([], dict);
    assert Without([], "sessionid", SessionDomain) == [];
    assert Without([], "ds_user_id", SessionDomain) == [];
    assert Without([], "csrftoken", SessionDomain) == [];
    assert jar.cookies == SetAll([], RequiredCookies(dict));
    assert jar.cookies == RequiredCookies(dict);
    if lookup.Failure? {
      return Failure(lookup.error);
    }
    return Success(Session(lookup.value.0, lookup.value.1, jar.cookies));
  }
}
