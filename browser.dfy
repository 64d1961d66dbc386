/** The state the browser window keeps in its own widgets while pages load:
    the address bar's text, the status label's text and the progress bar's
    visibility and value (BrowserWindow's load_url, go_home, url_changed and
    load_started / load_progress / load_finished). */
module Browser {
  import opened Text
  import opened Urls

  /** Range of the progress bar (Qt's default 0..100). Qt ignores a value
      outside it, and a fresh bar shows the reset value -1. */
  const ProgressMin: int := 0
  const ProgressMax: int := 100
  const ProgressReset: int := -1

  const StatusReady: string := "Ready"
  const StatusLoading: string := "Loading..."
  const StatusLoaded: string := "Loaded"
  const StatusFailed: string := "Failed to load"
  const StatusInvalidUrl: string := "Invalid URL"

  const StartPage: string := "https://google.com"
  const HomePage: string := "https://check.torproject.org/"

  /** A stripped `https://` address is left as it is by normalize_url. */
  lemma NormalizeKeepsHttps(s: string)
    requires IsStripped(s) && StartsWith(s, "https://")
    ensures NormalizeUrl(Some(s)) == s
  {
    StripOfStripped(s);
    var low := ToLower(s);
    forall k | 0 <= k < 8 ensures low[k] == SchemePrefixes[1][k] {
      assert s[..8] == "https://";
      assert s[k] == SchemePrefixes[1][k];
    }
    assert low[..8] == SchemePrefixes[1];
  }

  /** The start page and the home page are loaded as written. */
  lemma FixedPagesAreNormal(s: string)
    requires s == StartPage || s == HomePage
    ensures NormalizeUrl(Some(s)) == s
  {
    assert s[..8] == "https://";
    NormalizeKeepsHttps(s);
  }

  class BrowserWindow {
    /** Text of the address bar. */
    var addressText: string
    /** Text of the status label. */
    var status: string
    /** Whether the progress bar is shown. */
    var progressVisible: bool
    /** Value shown by the progress bar. */
    var progressValue: int
    /** The addresses handed to the web view, oldest first. */
    var requested: seq<string>

    /** The progress bar only ever holds its reset value or a value in range. */
    predicate Valid()
      reads this
    {
      progressValue == ProgressReset || ProgressMin <= progressValue <= ProgressMax
    }

    /** A new window: status "Ready", progress bar hidden and reset, and the
        start page requested. */
    constructor ()
      ensures Valid()
      ensures status == StatusReady && !progressVisible && progressValue == ProgressReset
      ensures addressText == StartPage && requested == [StartPage]
    {
      addressText := "";
      status := StatusReady;
      progressVisible := false;
      progressValue := ProgressReset;
      requested := [];
      new;
      LoadFixedPage(StartPage, false);
    }

    /** load_url: blank input does nothing; otherwise the normalised address
        goes into the address bar and is handed to the web view. `rejected`
        stands for the URL library refusing it, which puts "Invalid URL" in
        the status label instead. */
    method LoadUrl(url: string, rejected: bool)
      requires Valid()
      modifies this
      ensures Valid()
      ensures progressVisible == old(progressVisible) && progressValue == old(progressValue)
      ensures IsNoUrl(Some(url)) ==>
        addressText == old(addressText) && status == old(status) && requested == old(requested)
      ensures !IsNoUrl(Some(url)) ==>
        addressText == NormalizeUrl(Some(url)) &&
        (if rejected then status == StatusInvalidUrl && requested == old(requested)
         else status == old(status) && requested == old(requested) + [NormalizeUrl(Some(url))])
    {
      var norm := NormalizeUrl(Some(url));
      NormalizeEmptyIff(Some(url));
      if norm == "" {
        return;
      }
      addressText := norm;
      if rejected {
        status := StatusInvalidUrl;
      } else {
        requested := requested + [norm];
      }
    }

    /** go_home: load the anonymity network's check page. */
    method GoHome(rejected: bool)
      requires Valid()
      modifies this
      ensures Valid()
      ensures progressVisible == old(progressVisible) && progressValue == old(progressValue)
      ensures addressText == HomePage
      ensures rejected ==> status == StatusInvalidUrl && requested == old(requested)
      ensures !rejected ==> status == old(status) && requested == old(requested) + [HomePage]
    {
      LoadFixedPage(HomePage, rejected);
    }

    /** load_url on the start page or the home page, which normalisation
        leaves as they are. */
    method LoadFixedPage(page: string, rejected: bool)
      requires Valid() && (page == StartPage || page == HomePage)
      modifies this
      ensures Valid()
      ensures progressVisible == old(progressVisible) && progressValue == old(progressValue)
      ensures addressText == page
      ensures rejected ==> status == StatusInvalidUrl && requested == old(requested)
      ensures !rejected ==> status == old(status) && requested == old(requested) + [page]
    {
      FixedPagesAreNormal(page);
      assert !IsBlank(page) by { assert !IsSpace(page[0]); }
      LoadUrl(page, rejected);
    }

    /** url_changed: the address bar shows the address the web view reports. */
    method UrlChanged(url: string)
      requires Valid()
      modifies this
      ensures Valid()
      ensures addressText == url
      ensures status == old(status) && progressVisible == old(progressVisible)
      ensures progressValue == old(progressValue) && requested == old(requested)
    {
      addressText := url;
    }

    /** load_started: status "Loading...", progress bar shown at 0. */
    method LoadStarted()
      requires Valid()
      modifies this
      ensures Valid()
      ensures status == StatusLoading && progressVisible && progressValue == 0
      ensures addressText == old(addressText) && requested == old(requested)
    {
      status := StatusLoading;
      progressVisible := true;
      progressValue := ProgressMin;
    }

    /** load_progress: the progress bar takes the reported value; a value
        outside the bar's range leaves it unchanged. Nothing else changes. */
    method LoadProgress(progress: int)
      requires Valid()
      modifies this
      ensures Valid()
      ensures ProgressMin <= progress <= ProgressMax ==> progressValue == progress
      ensures !(ProgressMin <= progress <= ProgressMax) ==> progressValue == old(progressValue)
      ensures status == old(status) && progressVisible == old(progressVisible)
      ensures addressText == old(addressText) && requested == old(requested)
    {
      if ProgressMin <= progress <= ProgressMax {
        progressValue := progress;
      }
    }

    /** load_finished: the progress bar is hidden, keeping its value, and the
        status says whether the page loaded. */
    method LoadFinished(success: bool)
      requires Valid()
      modifies this
      ensures Valid()
      ensures !progressVisible && progressValue == old(progressValue)
      ensures status == if success then StatusLoaded else StatusFailed
      ensures addressText == old(addressText) && requested == old(requested)
    {
      progressVisible := false;
      if success {
        status := StatusLoaded;
      } else {
        status := StatusFailed;
      }
    }
  }

  /** A page load as the web view reports it: started, some progress, then
      finished. Whatever was shown before, the bar ends hidden at the last
      in-range value reported and the status tells the outcome. */
  method PageLoadCycle(w: BrowserWindow, p: int, success: bool)
    requires w.Valid() && ProgressMin <= p <= ProgressMax
    modifies w
    ensures w.Valid()
    ensures !w.progressVisible && w.progressValue == p
    ensures w.status == (if success then StatusLoaded else StatusFailed)
    ensures w.addressText == old(w.addressText) && w.requested == old(w.requested)
  {
    w.LoadStarted();
    w.LoadProgress(p);
    w.LoadFinished(success);
  }
}
