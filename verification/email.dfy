/**
 * The shape of an email address accepted by the attendee payload's Email
 * constraint: a non-empty local part of "atext" characters and dots, one '@',
 * and a domain of at least two dot-separated labels, each of letters, digits
 * and inner hyphens, at most 63 characters long.
 */
module Emails {
  import opened Wrappers

  /** The first position of `c` in `s`, if any. */
  function IndexOf(s: string, c: char): (r: Option<nat>)
    ensures r.Some? ==> r.value < |s| && s[r.value] == c && c !in s[..r.value]
    ensures r.None? <==> c !in s
  {
    if |s| == 0 then None
    else if s[0] == c then Some(0)
    else
      match IndexOf(s[1..], c)
      case None => None
      case Some(i) => assert s[..i + 1] == [s[0]] + s[1..][..i]; Some(i + 1)
  }

  predicate IsAlnum(c: char) {
    ('a' <= c <= 'z') || ('A' <= c <= 'Z') || ('0' <= c <= '9')
  }

  /** Characters allowed in the local part (never '@'). */
  predicate IsLocalChar(c: char) {
    || IsAlnum(c) || c == '.' || c == '!' || c == '#' || c == '$' || c == '%' || c == '&'
    || c == '\'' || c == '*' || c == '+' || c == '/' || c == '=' || c == '?' || c == '^'
    || c == '_' || c == '`' || c == '{' || c == '|' || c == '}' || c == '~' || c == '-'
  }

  predicate AllLocalChars(s: string) {
    |s| == 0 || (IsLocalChar(s[0]) && AllLocalChars(s[1..]))
  }

  predicate AllLabelChars(s: string) {
    |s| == 0 || ((IsAlnum(s[0]) || s[0] == '-') && AllLabelChars(s[1..]))
  }

  /** One domain label: alphanumeric at both ends, hyphens allowed inside. */
  predicate IsLabel(s: string) {
    0 < |s| <= 63 && IsAlnum(s[0]) && IsAlnum(s[|s| - 1]) && AllLabelChars(s)
  }

  /** One or more labels separated by dots. */
  predicate IsLabels(s: string)
    decreases |s|
  {
    match IndexOf(s, '.')
    case None => IsLabel(s)
    case Some(i) => IsLabel(s[..i]) && IsLabels(s[i + 1..])
  }

  /** A domain needs at least one dot: "example" alone is not a domain. */
  predicate IsDomain(s: string) {
    match IndexOf(s, '.')
    case None => false
    case Some(i) => IsLabel(s[..i]) && IsLabels(s[i + 1..])
  }

  predicate IsEmail(s: string) {
    match IndexOf(s, '@')
    case None => false
    case Some(i) => 0 < i && AllLocalChars(s[..i]) && IsDomain(s[i + 1..])
  }

  /** The split at '@' is at the end of a local part that holds no '@'. */
  lemma {:induction false} IndexOfAfter(l: string, c: char, d: string)
    requires c !in l
    ensures IndexOf(l + [c] + d, c) == Some(|l|)
  {
    if |l| > 0 {
      assert (l + [c] + d)[1..] == l[1..] + [c] + d;
      IndexOfAfter(l[1..], c, d);
    }
  }

  /** An address without '@' is rejected. */
  lemma NoAtRejected(s: string)
    requires '@' !in s
    ensures !IsEmail(s)
  {
  }

  /** An address whose part after the '@' has no dot is rejected ("john.doe1@example"). */
  lemma DotlessDomainRejected(local: string, domain: string)
    requires '@' !in local && '.' !in domain
    ensures !IsEmail(local + "@" + domain)
  {
    var s := local + "@" + domain;
    IndexOfAfter(local, '@', domain);
    assert s[|local| + 1..] == domain;
  }

  /** An address whose local part holds '@'-free atext and whose domain is two labels is accepted. */
  lemma {:induction false} TwoLabelAddressAccepted(local: string, host: string, tld: string)
    requires 0 < |local| && AllLocalChars(local) && IsLabel(host) && IsLabel(tld)
    ensures IsEmail(local + "@" + host + "." + tld)
  {
    LocalCharsHaveNoAt(local);
    LabelHasNoDot(host);
    LabelHasNoDot(tld);
    var s := local + "@" + host + "." + tld;
    assert s == local + ['@'] + (host + "." + tld);
    IndexOfAfter(local, '@', host + "." + tld);
    assert s[..|local|] == local;
    var d := s[|local| + 1..];
    assert d == host + ['.'] + tld;
    IndexOfAfter(host, '.', tld);
    assert d[..|host|] == host && d[|host| + 1..] == tld;
  }

  lemma {:induction false} LocalCharsHaveNoAt(s: string)
    requires AllLocalChars(s)
    ensures '@' !in s
  {
    if |s| > 0 {
      LocalCharsHaveNoAt(s[1..]);
      assert s == [s[0]] + s[1..];
    }
  }

  lemma {:induction false} LabelCharsHaveNoDot(s: string)
    requires AllLabelChars(s)
    ensures '.' !in s
  {
    if |s| > 0 {
      LabelCharsHaveNoDot(s[1..]);
      assert s == [s[0]] + s[1..];
    }
  }

  lemma LabelHasNoDot(s: string)
    requires IsLabel(s)
    ensures '.' !in s
  {
    LabelCharsHaveNoDot(s);
  }

  /** The addresses the registration tests register with: "john.doe1@example.com" and its siblings. */
  function TestAddress(n: char): (address: string) {
    "john.doe" + [n] + "@example.com"
  }

  /** Malformed addresses of the registration tests. */
  const AddressWithoutAt: string := "john.doe1example.com"
  const AddressWithoutDomainDot: string := "john.doe1@example"

  lemma {:induction false} AllLocalCharsConcat(a: string, b: string)
    requires AllLocalChars(a) && AllLocalChars(b)
    ensures AllLocalChars(a + b)
  {
    if |a| == 0 {
      assert a + b == b;
    } else {
      assert (a + b)[0] == a[0] && (a + b)[1..] == a[1..] + b;
      AllLocalCharsConcat(a[1..], b);
    }
  }

  lemma TestAddressAccepted(n: char)
    requires '0' <= n <= '9'
    ensures IsEmail(TestAddress(n))
  {
    LocalPartJohn();
    LabelExample();
    LabelCom();
    AllLocalCharsConcat("john.doe", [n]);
    assert TestAddress(n) == ("john.doe" + [n]) + "@" + "example" + "." + "com";
    TwoLabelAddressAccepted("john.doe" + [n], "example", "com");
  }

  lemma LocalPartJohn()
    ensures AllLocalChars("john.doe")
  {
  }

  lemma LabelExample()
    ensures IsLabel("example")
  {
  }

  lemma LabelCom()
    ensures IsLabel("com")
  {
  }

  lemma AddressWithoutAtRejected()
    ensures !IsEmail(AddressWithoutAt)
  {
    assert forall k :: 0 <= k < |AddressWithoutAt| ==> AddressWithoutAt[k] != '@';
    NoAtRejected(AddressWithoutAt);
  }

  lemma AddressWithoutDomainDotRejected()
    ensures !IsEmail(AddressWithoutDomainDot)
  {
    assert AddressWithoutDomainDot == "john.doe1" + "@" + "example";
    DotlessDomainRejected("john.doe1", "example");
  }
}
