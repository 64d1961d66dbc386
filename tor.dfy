/** The check made at start-up on the configured SOCKS proxy address of the
    anonymity network client (validate_tor_socks). */
module Tor {
  import opened Text

  /** The proxy address used when none is configured. */
  const DefaultTorSocks: string := "127.0.0.1:9050"

  /** validate_tor_socks: the text is cut at its first ':' into a host and a
      port; it is accepted when the host is non-empty and the port is a
      non-empty run of digits. Text without ':' is rejected. */
  function ValidateTorSocks(val: string): bool {
    match SplitOnce(val, ':')
    case None => false
    case Some((host, port)) => host != [] && IsDigits(port)
  }

  /** Text without a ':' is rejected. */
  lemma RejectsWithoutColon(val: string)
    requires ':' !in val
    ensures !ValidateTorSocks(val)
  {
  }

  /** The reference reading of a well-formed proxy address: there is a
      ':' at some position `i` past the start, no earlier ':', and everything
      after it is a non-empty run of digits. */
  predicate WellFormedAt(val: string, i: int) {
    0 < i < |val| && val[i] == ':' && ':' !in val[..i] && IsDigits(val[i + 1..])
  }

  /** Accepted exactly when the address is well formed at some position
      (so it holds exactly one ':', with text on both sides). */
  lemma ValidateIff(val: string)
    ensures ValidateTorSocks(val) <==> exists i :: WellFormedAt(val, i)
  {
    if ValidateTorSocks(val) {
      var (host, port) := SplitOnce(val, ':').value;
      assert val[..|host|] == host && val[|host| + 1..] == port;
      assert WellFormedAt(val, |host|);
    }
    if i :| WellFormedAt(val, i) {
      WellFormedAccepted(val, i);
    }
  }

  /** An address well formed at position `i` is accepted. */
  lemma WellFormedAccepted(val: string, i: int)
    requires WellFormedAt(val, i)
    ensures ValidateTorSocks(val)
  {
    assert val == val[..i] + [':'] + val[i + 1..];
    SplitOnceUnique(val, ':', val[..i], val[i + 1..]);
  }

  /** An accepted address holds exactly one ':'. */
  lemma AcceptedHasOneColon(val: string)
    requires ValidateTorSocks(val)
    ensures multiset(val)[':'] == 1
  {
    var (host, port) := SplitOnce(val, ':').value;
    assert ':' !in port;
    assert multiset(val) == multiset(host) + multiset{':'} + multiset(port);
  }

  /** The default address is accepted. */
  lemma AcceptsDefault(val: string)
    requires val == DefaultTorSocks
    ensures ValidateTorSocks(val)
  {
    assert val[9] == ':' && ':' !in val[..9];
    assert IsDigits(val[10..]);
    WellFormedAccepted(val, 9);
  }

  /** A second ':' in the port is rejected. */
  lemma RejectsTwoColons(val: string)
    requires val == "a:1:2"
    ensures !ValidateTorSocks(val)
  {
    assert val == "a" + [':'] + "1:2";
    SplitOnceUnique(val, ':', "a", "1:2");
    assert "1:2"[1] == ':';
  }

  /** An empty host is rejected. */
  lemma RejectsEmptyHost(val: string)
    requires val == ":9050"
    ensures !ValidateTorSocks(val)
  {
    assert val == [] + [':'] + "9050";
    SplitOnceUnique(val, ':', [], "9050");
  }

  /** An empty port is rejected. */
  lemma RejectsEmptyPort(val: string)
    requires val == "localhost:"
    ensures !ValidateTorSocks(val)
  {
    assert val == "localhost" + [':'] + [];
    SplitOnceUnique(val, ':', "localhost", []);
  }
}
