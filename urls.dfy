/** Preparing address-bar input before it is handed to the web view
    (normalize_url). */
module Urls {
  import opened Text

  /** The prefixes, compared against the lower-cased input, that mark an
      address as already carrying a scheme. `chrome:` and `qrc:` are not
      among them. */
  const SchemePrefixes: seq<string> := ["http://", "https://", "file:", "about:", "data:"]

  /** What is put in front of an address that carries none of the prefixes. */
  const DefaultScheme: string := "http://"

  /** Whether `s`, lower-cased, starts with one of the recognised prefixes. */
  predicate HasKnownScheme(s: string) {
    AnyStartsWith(ToLower(s), SchemePrefixes)
  }

  /** The address-bar input with Python's `None` as `None`, blank or missing
      input counting as no address at all. */
  predicate IsNoUrl(text: Option<string>) {
    text.None? || IsBlank(text.value)
  }

  /** normalize_url: "" for no address; the stripped text as it is when it
      carries a recognised prefix in any letter case; otherwise the stripped
      text behind `http://`. */
  function NormalizeUrl(text: Option<string>): string {
    var t := Strip(if text.Some? then text.value else "");
    if t == "" then ""
    else if HasKnownScheme(t) then t
    else DefaultScheme + t
  }

  /** The result is empty exactly when the input is `None` or blank. */
  lemma NormalizeEmptyIff(text: Option<string>)
    ensures NormalizeUrl(text) == "" <==> IsNoUrl(text)
  {
  }

  /** An address whose stripped text carries a recognised prefix, in any
      letter case, comes back as that stripped text, its case kept. */
  lemma NormalizeKeepsSchemed(text: string)
    requires !IsBlank(text) && HasKnownScheme(Strip(text))
    ensures NormalizeUrl(Some(text)) == Strip(text)
  {
  }

  /** Any other non-blank input gets `http://` in front of its stripped text. */
  lemma NormalizePrependsHttp(text: string)
    requires !IsBlank(text) && !HasKnownScheme(Strip(text))
    ensures NormalizeUrl(Some(text)) == "http://" + Strip(text)
  {
  }

  /** A `chrome:` address is not a recognised scheme: it is treated as a
      host name and gets `http://` in front. */
  lemma NormalizeChrome(s: string)
    requires s == "chrome://settings"
    ensures NormalizeUrl(Some(s)) == "http://" + s
  {
    assert IsStripped(s);
    NotSchemed(s, 'c');
    NormalizeUnschemed(s);
  }

  /** Likewise a `qrc:` address, once the surrounding blanks are stripped. */
  lemma NormalizeQrc(s: string)
    requires s == "qrc:/index.html"
    ensures NormalizeUrl(Some(" " + s + " ")) == "http://" + s
  {
    assert IsStripped(s);
    NotSchemed(s, 'q');
    NormalizeUnschemed(s);
    StripPadded(s);
  }

  /** A recognised prefix in upper case is recognised too, and the address
      keeps its letter case. */
  lemma NormalizeKeepsCase(s: string)
    requires s == "HTTPS://Example.ORG"
    ensures NormalizeUrl(Some(s)) == s
  {
    assert IsStripped(s);
    StripOfStripped(s);
    var low := ToLower(s);
    assert low[..8] == SchemePrefixes[1] by {
      forall k | 0 <= k < 8 ensures low[k] == SchemePrefixes[1][k] {
        assert LowerChar(s[k]) == SchemePrefixes[1][k];
      }
    }
    assert StartsWith(low, SchemePrefixes[1]);
  }

  /** normalize_url on a stripped address without a recognised prefix. */
  lemma NormalizeUnschemed(s: string)
    requires s != [] && IsStripped(s) && !HasKnownScheme(s)
    ensures NormalizeUrl(Some(s)) == DefaultScheme + s
  {
    StripOfStripped(s);
  }

  /** One blank on each side of a stripped, non-empty string is stripped away. */
  lemma StripPadded(s: string)
    requires s != [] && IsStripped(s)
    ensures Strip(" " + s + " ") == s
    ensures NormalizeUrl(Some(" " + s + " ")) == NormalizeUrl(Some(s))
  {
    var p := " " + s + " ";
    assert LeadingSpaces(p) == 1 by {
      assert p[1..] == s + " ";
    }
    var t := p[1..];
    assert t == s + " ";
    assert TrailingSpaces(t) == 1 by {
      assert t[..|t| - 1] == s;
    }
    StripOfStripped(s);
  }

  /** Every recognised prefix begins with 'h', 'f', 'a' or 'd', so a string
      starting with another character carries none of them. */
  lemma NotSchemed(s: string, c: char)
    requires s != [] && s[0] == c && c !in "hfadHFAD"
    ensures !HasKnownScheme(s)
  {
    var low := ToLower(s);
    forall i | 0 <= i < |SchemePrefixes|
      ensures !StartsWith(low, SchemePrefixes[i])
    {
      assert low[0] == LowerChar(c);
    }
  }

  /** A string that begins with `http://` carries a recognised scheme,
      whatever follows. */
  lemma HttpIsKnown(rest: string)
    ensures HasKnownScheme(DefaultScheme + rest)
  {
    var s := DefaultScheme + rest;
    var low := ToLower(s);
    assert low[..7] == DefaultScheme by {
      forall k | 0 <= k < 7 ensures low[k] == DefaultScheme[k] {
        assert s[k] == DefaultScheme[k];
      }
    }
    assert StartsWith(low, SchemePrefixes[0]);
  }

  /** Every non-empty result starts, in some letter case, with one of the
      recognised prefixes, and has no whitespace at either end. */
  lemma NormalizeResultShape(text: Option<string>)
    ensures NormalizeUrl(text) != "" ==> HasKnownScheme(NormalizeUrl(text))
    ensures IsStripped(NormalizeUrl(text))
  {
    var t := Strip(if text.Some? then text.value else "");
    if t != "" && !HasKnownScheme(t) {
      HttpIsKnown(t);
      var r := DefaultScheme + t;
      assert r[0] == 'h' && r[|r| - 1] == t[|t| - 1];
    }
  }

  /** Normalising an address that was already normalised changes nothing. */
  lemma NormalizeIdempotent(text: Option<string>)
    ensures NormalizeUrl(Some(NormalizeUrl(text))) == NormalizeUrl(text)
  {
    var r := NormalizeUrl(text);
    NormalizeResultShape(text);
    StripOfStripped(r);
  }
}
