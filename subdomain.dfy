/** `getFirstSubdomain(host)`, copied into the server-side props of the
    checkout, catalogue and terms pages and into the document's initial
    props: the store is looked up by the part of the Host header before its
    first '.'. */
module Subdomain {
  import opened Text

  /** `getFirstSubdomain(host)`: an absent or empty host gives "", otherwise
      the first piece of `host.split(".")` when there are several pieces and
      the host itself when there is one. The result is always a prefix of
      the host that holds no '.'. */
  function GetFirstSubdomain(host: Option<string>): (r: string)
    ensures host.Some? ==> r <= host.value
    ensures '.' !in r
  {
    if host.None? || host.value == "" then ""
    else
      var parts := Split(host.value, '.');
      SplitFirst(host.value, '.');
      if |parts| > 1 then parts[0] else host.value
  }

  /** The three cases: no host gives "", a host without '.' is returned
      unchanged, and otherwise the result is the text before the first '.'
      (the character after it is the first '.'). */
  lemma FirstSubdomainCases(host: Option<string>)
    ensures host.None? || host.value == "" ==> GetFirstSubdomain(host) == ""
    ensures host.Some? && '.' !in host.value ==> GetFirstSubdomain(host) == host.value
    ensures host.Some? && '.' in host.value ==>
      var r := GetFirstSubdomain(host);
      |r| < |host.value| && host.value[|r|] == '.' && |r| == IndexOf(host.value, '.')
  {
    if host.Some? && host.value != "" {
      SplitFirst(host.value, '.');
    }
  }

  /** The first subdomain is the only dot-free prefix of the host that is
      either the whole host or followed by a '.'. */
  lemma FirstSubdomainUnique(h: string, p: string)
    requires p <= h && '.' !in p
    requires p == h || h[|p|] == '.'
    ensures GetFirstSubdomain(Some(h)) == p
  {
    FirstSubdomainCases(Some(h));
    var r := GetFirstSubdomain(Some(h));
    if '.' in h && |p| == |r| {
      assert p == h[..|p|] && r == h[..|r|];
    }
  }

  /** Host names with dots: the first label is kept, even when empty. */
  lemma DottedHostExamples()
    ensures GetFirstSubdomain(Some("a.b.c")) == "a"
    ensures GetFirstSubdomain(Some(".x.com")) == ""
  {
    FirstSubdomainUnique("a.b.c", "a");
    FirstSubdomainUnique(".x.com", "");
  }

  /** A host without a dot, such as a development server, is kept whole;
      a request without a Host header gives "". */
  lemma PlainHostExamples()
    ensures GetFirstSubdomain(Some("localhost:3000")) == "localhost:3000"
    ensures GetFirstSubdomain(None) == ""
  {
    var h := "localhost:3000";
    assert forall i :: 0 <= i < |h| ==> h[i] != '.';
    assert '.' !in h;
    FirstSubdomainCases(Some(h));
  }
}
