/**
  The request URL that `retrieve_from_api` builds before its GET request:
  `{scheme}://{base_url}/{endpoint}?access_key={access_key}`, with the scheme
  chosen by the `secure` flag. The parts are concatenated as they are; nothing
  is percent-encoded.
 */
module Fetcher {

  const QUERY_PREFIX: string := "?access_key="

  /** `https` for a secure request, `http` otherwise. */
  function Scheme(secure: bool): string {
    if secure then "https" else "http"
  }

  predicate StartsWith(s: string, prefix: string) {
    |prefix| <= |s| && s[..|prefix|] == prefix
  }

  predicate EndsWith(s: string, suffix: string) {
    |suffix| <= |s| && s[|s| - |suffix|..] == suffix
  }

  /** The URL of one request to the rates API. */
  function RequestUrl(baseUrl: string, endpoint: string, accessKey: string, secure: bool): (url: string)
    ensures StartsWith(url, Scheme(secure) + "://" + baseUrl + "/")
    ensures EndsWith(url, "/" + endpoint + QUERY_PREFIX + accessKey)
    ensures |url| == |Scheme(secure)| + |baseUrl| + |endpoint| + |accessKey| + 16
  {
    var url := Scheme(secure) + "://" + baseUrl + "/" + endpoint + QUERY_PREFIX + accessKey;
    assert url == (Scheme(secure) + "://" + baseUrl + "/") + (endpoint + QUERY_PREFIX + accessKey);
    assert url == (Scheme(secure) + "://" + baseUrl) + ("/" + endpoint + QUERY_PREFIX + accessKey);
    url
  }

  /** The URL uses encrypted transport exactly when the flag asks for it. */
  lemma SecureIffHttps(baseUrl: string, endpoint: string, accessKey: string, secure: bool)
    ensures StartsWith(RequestUrl(baseUrl, endpoint, accessKey, secure), "https://") <==> secure
  {
    var url := RequestUrl(baseUrl, endpoint, accessKey, secure);
    var head := Scheme(secure) + "://" + baseUrl + "/";
    assert url[..|head|] == head;
    if !secure {
      assert url[4] == head[4] == ':';
    } else {
      assert url[..8] == head[..8] == "https://";
    }
  }

  /** The secure and the plain URL for the same request differ only in the scheme:
      "https" and "http" followed by the same text. */
  lemma SchemesDifferOnlyInPrefix(baseUrl: string, endpoint: string, accessKey: string)
    ensures var s := RequestUrl(baseUrl, endpoint, accessKey, true);
            var p := RequestUrl(baseUrl, endpoint, accessKey, false);
            |s| == |p| + 1 && s[..5] == "https" && p[..4] == "http" && s[5..] == p[4..]
  {
    var rest := "://" + baseUrl + "/" + endpoint + QUERY_PREFIX + accessKey;
    var s := RequestUrl(baseUrl, endpoint, accessKey, true);
    var p := RequestUrl(baseUrl, endpoint, accessKey, false);
    assert s == "https" + rest;
    assert p == "http" + rest;
    assert s[5..] == rest;
    assert p[4..] == rest;
  }

  /** Given the base and the endpoint, the URL determines both the transport
      flag and the access key. */
  lemma RequestUrlInjective(baseUrl: string, endpoint: string, key1: string, key2: string, secure1: bool, secure2: bool)
    requires RequestUrl(baseUrl, endpoint, key1, secure1) == RequestUrl(baseUrl, endpoint, key2, secure2)
    ensures key1 == key2 && secure1 == secure2
  {
    var url := RequestUrl(baseUrl, endpoint, key1, secure1);
    SecureIffHttps(baseUrl, endpoint, key1, secure1);
    SecureIffHttps(baseUrl, endpoint, key2, secure2);
    assert secure1 == secure2;
    assert |key1| == |key2|;
    var t1 := "/" + endpoint + QUERY_PREFIX + key1;
    var t2 := "/" + endpoint + QUERY_PREFIX + key2;
    assert url[|url| - |t1|..] == t1;
    assert url[|url| - |t2|..] == t2;
    assert t1[|t1| - |key1|..] == key1;
    assert t2[|t2| - |key2|..] == key2;
  }

  /** No delimiter separates the base from the endpoint: a slash may sit on
      either side of the joint and the request is the same. */
  lemma BaseAndEndpointNotDelimited(base: string, middle: string, endpoint: string, accessKey: string, secure: bool)
    ensures RequestUrl(base + "/" + middle, endpoint, accessKey, secure)
         == RequestUrl(base, middle + "/" + endpoint, accessKey, secure)
  {
  }
}
