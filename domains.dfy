/**
 * `is_plain_domain` of `pyrogram/utils.py`, which decides whether a URL is a
 * bare domain (no path, query or fragment). It was transcribed from a C++
 * test against `npos`, where a missing character yields an index past the end.
 */
module Domains {

  /** Python's `str.find` for one character: the first index of `c`, or -1. */
  function Find(s: string, c: char): (r: int)
    ensures -1 <= r < |s|
    ensures r == -1 <==> c !in s
    ensures r >= 0 ==> s[r] == c && c !in s[..r]
  {
    if |s| == 0 then -1
    else if s[0] == c then 0
    else
      var k := Find(s[1..], c);
      assert s[1..] == s[..|s|][1..];
      if k == -1 then -1
      else
        assert s[..k + 1] == [s[0]] + s[1..][..k];
        k + 1
  }

  /** `is_plain_domain` as written: each test is `url.find(x) >= len(url)`. */
  predicate IsPlainDomain(url: string) {
    Find(url, '/') >= |url| && Find(url, '?') >= |url| && Find(url, '#') >= |url|
  }

  /** Since `find` never returns an index at or past the end, the test never holds. */
  lemma IsPlainDomainNeverHolds(url: string)
    ensures !IsPlainDomain(url)
  {
  }

  /** The evidently intended test: in Python a missing character is reported as -1. */
  predicate IsPlainDomainIntended(url: string) {
    Find(url, '/') == -1 && Find(url, '?') == -1 && Find(url, '#') == -1
  }

  /** The corrected test accepts exactly the URLs without '/', '?' and '#'. */
  lemma IsPlainDomainIntendedMeaning(url: string)
    ensures IsPlainDomainIntended(url) <==> ('/' !in url && '?' !in url && '#' !in url)
  {
  }

  /** A concrete input that shows the difference: a bare domain. */
  lemma BareDomainRejected()
    ensures !IsPlainDomain("t.me") && IsPlainDomainIntended("t.me")
  {
    var url := "t.me";
    assert url == ['t', '.', 'm', 'e'];
    assert '/' !in url && '?' !in url && '#' !in url;
    IsPlainDomainIntendedMeaning(url);
  }
}
