# PyBrowse: address normalisation, proxy validation and load status

PyBrowse is a privacy-oriented desktop browser. It is a thin window around an
embedded browser engine, and the engine does all page loading and rendering.
This model covers the logic the window owns itself. All of it is in
`PyBrowse.py`:

- **normalize_url** prepares the text typed into the address bar.
  - `None` or blank text means "no address".
  - Text whose lower-cased form starts with `http://`, `https://`, `file:`,
    `about:` or `data:` is kept as typed, once stripped.
  - Any other text gets `http://` in front.
- **validate_tor_socks** checks the configured SOCKS proxy address of the
  anonymity network client. The address is split at its first `:`. It is
  accepted when the host part is non-empty and the port part is a non-empty
  run of digits.
- **The window's load status.** Three widgets change as the engine reports
  a page load: the status label, the progress bar's visibility and the
  progress bar's value. The address bar changes too, through `load_url`,
  `go_home` and `url_changed`.

Modules:

- `Text` (text.dfy) holds the Python string operations the code relies on:
  `strip`, `lower`, `startswith`, `any(...)` over prefixes, `isdigit` and
  `split(sep, 1)`. Each comes with a contract that characterises its result.
- `Urls` (urls.dfy) holds `NormalizeUrl` and its properties: the empty
  case, the two branches, the result's shape and idempotence.
- `Tor` (tor.dfy) holds `ValidateTorSocks`. It is proved equivalent to an
  independent positional reading, `WellFormedAt`.
- `Browser` (browser.dfy) holds the class `BrowserWindow`. Its fields are
  the address bar text, the status text, the progress bar's visibility and
  value, and the list of addresses handed to the web view. Each handler is
  a method with `modifies this` that states every field's new value.

The code's comment on line 115 also names `chrome:` and `qrc:`. The tuple on
line 116 does not contain them, and the model follows the tuple. Such
addresses get `http://` in front (`Urls.NormalizeChrome`, `Urls.NormalizeQrc`).

## Model

| member | source | states |
|---|---|---|
| `Text.LeadingSpaces` | PyBrowse.py:111 | the count of leading whitespace: every character before it is whitespace and the next one is not |
| `Text.TrailingSpaces` | PyBrowse.py:111 | the count of trailing whitespace: every character after the cut is whitespace and the one before it is not |
| `Text.Strip` | PyBrowse.py:111 | `strip()` gives the piece of the input that starts at its first non-space character; everything outside it is whitespace; it has no whitespace at either end; it is empty exactly when the input is blank |
| `Text.StripOfStripped` | PyBrowse.py:111 | stripping a string with no whitespace at either end returns it unchanged |
| `Text.ToLower` | PyBrowse.py:114 | `lower()` keeps the length and lower-cases each character in place |
| `Text.AnyStartsWith` | PyBrowse.py:116 | `any(s.startswith(p) for p in prefixes)` holds exactly when some listed prefix starts `s` |
| `Text.SplitOnce` | PyBrowse.py:362-364 | `None` exactly when the separator is absent; otherwise `before + [sep] + after` rebuilds the input and `before` holds no separator |
| `Text.SplitOnceUnique` | PyBrowse.py:364 | any decomposition `before + [sep] + after` with no separator in `before` is the one `split(sep, 1)` returns |
| `Urls.NormalizeEmptyIff` | PyBrowse.py:110-113 | the result is `""` exactly when the input is `None` or blank |
| `Urls.NormalizeKeepsSchemed` | PyBrowse.py:114-117 | non-blank input whose stripped text carries a recognised prefix, in any case, comes back as the stripped text with its case kept |
| `Urls.NormalizePrependsHttp` | PyBrowse.py:116-119 | any other non-blank input comes back as `http://` followed by its stripped text |
| `Urls.NormalizeUnschemed` | PyBrowse.py:116-119 | a stripped, non-empty address without a recognised prefix gets `http://` in front |
| `Urls.NotSchemed` | PyBrowse.py:116 | text starting with a character other than h, f, a or d (in either case) carries no recognised prefix |
| `Urls.HttpIsKnown` | PyBrowse.py:116-119 | whatever follows `http://`, the result carries a recognised prefix |
| `Urls.StripPadded` | PyBrowse.py:111 | one blank on each side of a stripped address is removed, and normalising the padded address gives the same result |
| `Urls.NormalizeChrome` | PyBrowse.py:115-119 | `chrome://settings` is not recognised and becomes `http://chrome://settings` |
| `Urls.NormalizeQrc` | PyBrowse.py:115-119 | ` qrc:/index.html ` is stripped and becomes `http://qrc:/index.html` |
| `Urls.NormalizeKeepsCase` | PyBrowse.py:114-117 | `HTTPS://Example.ORG` is recognised through lower-casing and returned with its case kept |
| `Urls.NormalizeResultShape` | PyBrowse.py:110-119 | every non-empty result starts, case-insensitively, with one of the five recognised prefixes; no result has whitespace at either end |
| `Urls.NormalizeIdempotent` | PyBrowse.py:110-119 | normalising an already normalised address changes nothing |
| `Tor.RejectsWithoutColon` | PyBrowse.py:362-363 | an address without `:` is rejected |
| `Tor.ValidateIff` | PyBrowse.py:361-365 | accepted exactly when some position holds the first `:`, is past the start, and is followed by a non-empty run of digits |
| `Tor.WellFormedAccepted` | PyBrowse.py:364-365 | an address well formed at some position is accepted |
| `Tor.AcceptedHasOneColon` | PyBrowse.py:364-365 | an accepted address holds exactly one `:` |
| `Tor.AcceptsDefault` | PyBrowse.py:361-365 | the default address `127.0.0.1:9050` (line 8) is accepted |
| `Tor.RejectsTwoColons` | PyBrowse.py:364-365 | `a:1:2` is rejected, because its port part `1:2` is not all digits |
| `Tor.RejectsEmptyHost` | PyBrowse.py:364-365 | `:9050` is rejected |
| `Tor.RejectsEmptyPort` | PyBrowse.py:364-365 | `localhost:` is rejected |
| `Browser.NormalizeKeepsHttps` | PyBrowse.py:116-117 | a stripped `https://` address is loaded as written |
| `Browser.FixedPagesAreNormal` | PyBrowse.py:307-308 | the start page and the home page pass through normalisation unchanged |
| `Browser.BrowserWindow.constructor` | PyBrowse.py:243-250 | a new window shows "Ready" with the progress bar hidden and reset; the start page (line 179) is in the address bar and has been requested |
| `Browser.BrowserWindow.LoadUrl` | PyBrowse.py:292-302 | blank input changes nothing; otherwise the address bar shows the normalised address, which is either requested or, when the URL library refuses it, reported as "Invalid URL"; the progress bar is untouched |
| `Browser.BrowserWindow.LoadFixedPage` | PyBrowse.py:292-299 | loading the start page or the home page puts exactly that address in the address bar and requests it unless refused; the progress bar is untouched |
| `Browser.BrowserWindow.GoHome` | PyBrowse.py:307-308 | the address bar shows the check page, which is requested unless refused |
| `Browser.BrowserWindow.UrlChanged` | PyBrowse.py:310-311 | only the address bar text changes, to the reported address |
| `Browser.BrowserWindow.LoadStarted` | PyBrowse.py:313-316 | status "Loading...", progress bar visible at 0; the address bar and request list are unchanged |
| `Browser.BrowserWindow.LoadProgress` | PyBrowse.py:318-319 | only the progress value changes: to the reported value when it is in 0..100, otherwise not at all |
| `Browser.BrowserWindow.LoadFinished` | PyBrowse.py:321-326 | progress bar hidden with its value kept; status "Loaded" on success and "Failed to load" otherwise; nothing else changes |
| `Browser.PageLoadCycle` | PyBrowse.py:287-289 | a started, progressing and finished load leaves the bar hidden at the last reported value, with the status reporting the outcome |

Every `BrowserWindow` method also keeps `Valid()`: the progress value is
either Qt's reset value -1 or within 0..100.

## Left out

- Python's Unicode-aware `strip`, `lower` and `isdigit` are modelled over
  ASCII. Whitespace is the ASCII characters for which `str.isspace()`
  holds. Lower-casing maps only `A`..`Z`. Digits are only `0`..`9`.
- `Tor.ValidateTorSocks` returns a plain `bool`. With an empty host the
  code returns the empty host string, which is falsy, so the verdict is
  the same.
- Environment variables and engine command-line flags (lines 8-16) are
  process configuration read by the engine.
- Widget construction, styling, layout and signal wiring (lines 128-290)
  are UI. Only the four abstracted widget values are modelled.
- The URL library's parsing and the web view's `setUrl` are foreign
  libraries. A request is modelled as an entry in `requested`. Whether the
  library refuses an address is a parameter of `LoadUrl` and `GoHome`.
- Qt's progress bar is abstracted to its documented rules. Its range is
  0..100, it ignores values outside that range, and a new bar holds -1.
- `update_navigation_buttons` depends on the engine's history object.
- The injected anti-fingerprinting JavaScript (lines 41-95) is run by the
  engine.
- `ensure_profile_dir`, `cleanup_profile_dir` and `_cleanup_on_quit` are
  filesystem and engine cache operations.
- `request_newnym` is a network call through a third-party control client,
  followed by message boxes.
- The start-up warning printed when the proxy address fails validation is
  console output.
