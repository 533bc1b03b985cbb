/** Every endpoint in the core is fmt.Sprintf("https://%s" + suffix, org):
    the organisation spliced between the scheme and a fixed suffix such as
    ".auth0.com/oauth/token".  This module names that shape once and proves
    the organisation can be read back from it. */
module Urls {

  function OrgUrl(org: string, suffix: string): (u: string)
    ensures |u| == 8 + |org| + |suffix|
    ensures u[..8] == "https://" && u[8..8 + |org|] == org && u[8 + |org|..] == suffix
  {
    "https://" + org + suffix
  }

  /** Two organisations share an endpoint only if they are the same
      organisation: the template is injective in `org`. */
  lemma OrgUrlInjective(a: string, b: string, suffix: string)
    requires OrgUrl(a, suffix) == OrgUrl(b, suffix)
    ensures a == b
  {
    var u := OrgUrl(a, suffix);
    assert |a| == |b|;
    assert a == u[8..8 + |a|];
  }

  /** A longer suffix is the shorter one's URL with the rest appended. */
  lemma OrgUrlExtends(org: string, host: string, path: string)
    ensures OrgUrl(org, host + path) == OrgUrl(org, host) + path
  {
  }

  /** The URL of a suffix begins with the URL of any prefix of that suffix. */
  lemma OrgUrlPrefix(org: string, host: string, suffix: string)
    requires |host| <= |suffix| && suffix[..|host|] == host
    ensures OrgUrl(org, suffix)[..8 + |org| + |host|] == OrgUrl(org, host)
  {
    assert suffix == host + suffix[|host|..];
    OrgUrlExtends(org, host, suffix[|host|..]);
  }

  /** Different suffixes give different URLs for the same organisation. */
  lemma OrgUrlsDiffer(org: string, s: string, t: string)
    requires s != t
    ensures OrgUrl(org, s) != OrgUrl(org, t)
  {
  }
}
