/**
 * components/Portfolio.tsx: `getEmbedUrl`, which turns a YouTube or Vimeo
 * page address into the provider's player address, and the per-platform
 * share links of `shareOnSocial`.
 *
 * The two regular expressions are modelled as explicit matchers with the
 * semantics of a JavaScript `match` without the global flag: the leftmost
 * position at which the pattern matches wins, and at that position the
 * alternatives are tried in order, greedy quantifiers from their longest
 * extent down. Both patterns carry the `i` flag; every literal in them is
 * ASCII, and against an ASCII literal only the ASCII letters fold (`A`-`Z`
 * with `a`-`z`), so folding the text's ASCII capitals suffices.
 */
module Portfolio {
  import opened Wrappers
  import opened Text
  import opened Records
  import App

  // ---------------------------------------------------------------------------
  // Character classes and literals

  /** Case folding for the `i` flag: `A`-`Z` compare equal to `a`-`z`. */
  function Fold(c: char): char {
    if 'A' <= c <= 'Z' then (c as int + 32) as char else c
  }

  /** The literal `lit` (written in lower case) matches `s` at `i`, ignoring ASCII case. */
  predicate LitAt(s: string, i: int, lit: string) {
    0 <= i && i + |lit| <= |s| && forall k :: 0 <= k < |lit| ==> Fold(s[i + k]) == lit[k]
  }

  lemma LitAtChar(s: string, i: int, lit: string, k: nat)
    requires LitAt(s, i, lit) && k < |lit|
    ensures Fold(s[i + k]) == lit[k]
  {
  }

  /** `[^"&?\/\s]`: a character a YouTube id may contain. */
  predicate IsIdChar(c: char) {
    c != '"' && c != '&' && c != '?' && c != '/' && !IsWhitespace(c)
  }

  const IdLength: nat := 11

  /** `([^"&?\/\s]{11})` matches at `i`. */
  predicate IdAt(s: string, i: int) {
    0 <= i && i + IdLength <= |s| && forall k :: i <= k < i + IdLength ==> IsIdChar(s[k])
  }

  /** A text that is a YouTube id on its own. */
  predicate IsId(id: string) {
    |id| == IdLength && forall k :: 0 <= k < |id| ==> IsIdChar(id[k])
  }

  /** `\w` without the `u` flag. */
  predicate IsWordChar(c: char) {
    'a' <= c <= 'z' || 'A' <= c <= 'Z' || IsDigit(c) || c == '_'
  }

  // ---------------------------------------------------------------------------
  // Greedy runs

  /** Where the run that `.` matches from `i` ends: the first line terminator at or after `i`, or the end. */
  function LineEnd(s: string, i: nat): (e: nat)
    requires i <= |s|
    ensures i <= e <= |s|
    ensures forall k :: i <= k < e ==> !IsLineTerminator(s[k])
    ensures e == |s| || IsLineTerminator(s[e])
    decreases |s| - i
  {
    if i == |s| || IsLineTerminator(s[i]) then i else LineEnd(s, i + 1)
  }

  /** The end of the maximal run of digits from `i` (`\d+` greedy, when it is longer than zero). */
  function DigitEnd(s: string, i: nat): (e: nat)
    requires i <= |s|
    ensures i <= e <= |s|
    ensures forall k :: i <= k < e ==> IsDigit(s[k])
    ensures e == |s| || !IsDigit(s[e])
    decreases |s| - i
  {
    if i == |s| || !IsDigit(s[i]) then i else DigitEnd(s, i + 1)
  }

  /** The end of the maximal run of `\w` characters, or of `[\w-]` characters when `dash` holds. */
  function WordEnd(s: string, i: nat, dash: bool): (e: nat)
    requires i <= |s|
    ensures i <= e <= |s|
    ensures forall k :: i <= k < e ==> IsWordChar(s[k]) || (dash && s[k] == '-')
    ensures e == |s| || !(IsWordChar(s[e]) || (dash && s[e] == '-'))
    decreases |s| - i
  {
    if i == |s| || !(IsWordChar(s[i]) || (dash && s[i] == '-')) then i else WordEnd(s, i + 1, dash)
  }

  /** The first `/` at or after `i`. */
  function FirstSlash(s: string, i: nat): (r: Option<nat>)
    requires i <= |s|
    ensures r.Some? ==> i <= r.value < |s| && s[r.value] == '/'
    ensures forall k :: i <= k < (if r.Some? then r.value else |s|) ==> s[k] != '/'
    decreases |s| - i
  {
    if i == |s| then None else if s[i] == '/' then Some(i) else FirstSlash(s, i + 1)
  }

  // ---------------------------------------------------------------------------
  // Leftmost match

  /** A match of a pattern: where it starts and where its capture starts. */
  datatype Hit = Hit(at: nat, capture: nat)

  /**
   * `String.prototype.match` without the global flag: the first position in
   * `[p, n]` at which the pattern `at` matches there, with its capture.
   */
  function Leftmost(at: nat -> Option<nat>, p: nat, n: nat): (r: Option<Hit>)
    requires p <= n
    ensures r.Some? ==> p <= r.value.at <= n && at(r.value.at) == Some(r.value.capture)
    ensures forall x :: p <= x <= (if r.Some? then r.value.at - 1 else n) ==> at(x).None?
    decreases n - p
  {
    if at(p).Some? then Some(Hit(p, at(p).value))
    else if p == n then None
    else Leftmost(at, p + 1, n)
  }

  /** The leftmost match is at the first position where the pattern matches. */
  lemma LeftmostIsFirst(at: nat -> Option<nat>, n: nat, p: nat)
    requires p <= n && at(p).Some?
    requires forall x :: 0 <= x < p ==> at(x).None?
    ensures Leftmost(at, 0, n) == Some(Hit(p, at(p).value))
  {
  }

  // ---------------------------------------------------------------------------
  // The YouTube pattern
  //   (?:youtube\.com\/(?:[^\/]+\/.+\/|(?:v|e(?:mbed)?|shorts)\/|.*[?&]v=)|youtu\.be\/)([^"&?\/\s]{11})

  const YouTubeHost: string := "youtube.com/"
  const ShortHost: string := "youtu.be/"

  /** A `/` followed by an id. */
  predicate SlashBeforeId(s: string, j: int) {
    0 <= j < |s| && s[j] == '/' && IdAt(s, j + 1)
  }

  /** The greatest `j` in `[lo, hi)` with `SlashBeforeId`: the first one backtracking from the longest `.+` tries. */
  function LastSlashBeforeId(s: string, lo: nat, hi: nat): (r: Option<nat>)
    requires hi <= |s|
    ensures r.Some? ==> lo <= r.value < hi && SlashBeforeId(s, r.value)
    ensures forall j :: (if r.Some? then r.value + 1 else lo) <= j < hi ==> !SlashBeforeId(s, j)
    decreases hi
  {
    if hi <= lo then None
    else if SlashBeforeId(s, hi - 1) then Some(hi - 1)
    else LastSlashBeforeId(s, lo, hi - 1)
  }

  /** `[?&]v=` followed by an id. */
  predicate ParamBeforeId(s: string, m: int) {
    0 <= m < |s| && (s[m] == '?' || s[m] == '&') && LitAt(s, m + 1, "v=") && IdAt(s, m + 3)
  }

  /** The greatest `m` in `[lo, hi)` with `ParamBeforeId`: the first one backtracking from the longest `.*` tries. */
  function LastParamBeforeId(s: string, lo: nat, hi: nat): (r: Option<nat>)
    requires hi <= |s|
    ensures r.Some? ==> lo <= r.value < hi && ParamBeforeId(s, r.value)
    ensures forall m :: (if r.Some? then r.value + 1 else lo) <= m < hi ==> !ParamBeforeId(s, m)
    decreases hi
  {
    if hi <= lo then None
    else if ParamBeforeId(s, hi - 1) then Some(hi - 1)
    else LastParamBeforeId(s, lo, hi - 1)
  }

  /** `[^\/]+\/.+\/` then the id, after the host: the id's start. */
  function PathThenId(s: string, q: nat): (r: Option<nat>)
    requires q <= |s|
    ensures r.Some? ==> IdAt(s, r.value)
  {
    match FirstSlash(s, q)
    case None => None
    case Some(s1) =>
      if s1 == q then None
      else match LastSlashBeforeId(s, s1 + 2, LineEnd(s, s1 + 1))
        case None => None
        case Some(j) => Some(j + 1)
  }

  /** `(?:v|e(?:mbed)?|shorts)\/` then the id, after the host: the id's start. */
  function PrefixThenId(s: string, q: nat): (r: Option<nat>)
    requires q <= |s|
    ensures r.Some? ==> IdAt(s, r.value)
  {
    if LitAt(s, q, "v/") && IdAt(s, q + 2) then Some(q + 2)
    else if LitAt(s, q, "embed/") && IdAt(s, q + 6) then Some(q + 6)
    else if LitAt(s, q, "e/") && IdAt(s, q + 2) then Some(q + 2)
    else if LitAt(s, q, "shorts/") && IdAt(s, q + 7) then Some(q + 7)
    else None
  }

  /** `.*[?&]v=` then the id, after the host: the id's start. */
  function QueryThenId(s: string, q: nat): (r: Option<nat>)
    requires q <= |s|
    ensures r.Some? ==> IdAt(s, r.value)
  {
    match LastParamBeforeId(s, q, LineEnd(s, q))
    case None => None
    case Some(m) => Some(m + 3)
  }

  /** The YouTube pattern tried at position `p`: the start of the captured id. */
  function YouTubeAt(s: string, p: nat): (r: Option<nat>)
    ensures r.Some? ==> IdAt(s, r.value) && (LitAt(s, p, YouTubeHost) || LitAt(s, p, ShortHost))
  {
    var short := if LitAt(s, p, ShortHost) && IdAt(s, p + |ShortHost|) then Some(p + |ShortHost|) else None;
    if LitAt(s, p, YouTubeHost) then
      var q := p + |YouTubeHost|;
      var path := PathThenId(s, q);
      if path.Some? then path
      else
        var prefix := PrefixThenId(s, q);
        if prefix.Some? then prefix
        else
          var query := QueryThenId(s, q);
          if query.Some? then query else short
    else short
  }

  /** The YouTube pattern, leftmost match: the start of the captured id. */
  function FindYouTube(s: string): Option<Hit> {
    Leftmost((x: nat) => YouTubeAt(s, x), 0, |s|)
  }

  // ---------------------------------------------------------------------------
  // The Vimeo pattern
  //   (?:vimeo\.com\/(?:channels\/[\w-]+\/|groups\/[\w-]+\/videos\/|album\/\d+\/video\/|ondemand\/\w+\/|)?
  //    |player\.vimeo\.com\/video\/)(\d+)

  const VimeoHost: string := "vimeo.com/"
  const PlayerPath: string := "player.vimeo.com/video/"

  /** `(\d+)` at `i`: the maximal digit run, when it is not empty. */
  function DigitsAt(s: string, i: nat): (r: Option<nat>)
    requires i <= |s|
    ensures r.Some? ==> i < r.value <= |s| && r.value == DigitEnd(s, i)
  {
    var e := DigitEnd(s, i);
    if e > i then Some(e) else None
  }

  /** The repeated class of a path group: `[\w-]+`, `\w+` or `\d+`. */
  datatype Run = WordOrDash | Word | Digits

  /** The end of the maximal run of `run`'s class from `i`. */
  function RunEnd(s: string, i: nat, run: Run): (e: nat)
    requires i <= |s|
    ensures i <= e <= |s|
  {
    match run
    case WordOrDash => WordEnd(s, i, true)
    case Word => WordEnd(s, i, false)
    case Digits => DigitEnd(s, i)
  }

  /**
   * `literal`, a maximal non-empty run, then `closing`, at `i`: the position
   * after `closing`. No shorter run can be followed by `closing`, whose first
   * character is not in the run's class.
   */
  function Group(s: string, i: nat, literal: string, run: Run, closing: string): (r: Option<nat>)
    requires i <= |s|
    ensures r.Some? ==> r.value <= |s|
  {
    if LitAt(s, i, literal) then
      var w := RunEnd(s, i + |literal|, run);
      if i + |literal| < w && LitAt(s, w, closing) then Some(w + |closing|) else None
    else None
  }

  /** A digit run starts at the end of a group. */
  predicate DigitsAfter(s: string, g: Option<nat>) {
    g.Some? && g.value <= |s| && DigitsAt(s, g.value).Some?
  }

  /**
   * The optional group after `vimeo.com/`, its alternatives in order, each
   * kept only when the digits follow it, the empty alternative last: the start
   * of the digit run.
   */
  function VimeoPathThenDigits(s: string, r: nat): (d: Option<nat>)
    requires r <= |s|
    ensures d.Some? ==> d.value <= |s| && d.value < DigitEnd(s, d.value)
  {
    var channel := Group(s, r, "channels/", WordOrDash, "/");
    var group := Group(s, r, "groups/", WordOrDash, "/videos/");
    var album := Group(s, r, "album/", Digits, "/video/");
    var onDemand := Group(s, r, "ondemand/", Word, "/");
    if DigitsAfter(s, channel) then channel
    else if DigitsAfter(s, group) then group
    else if DigitsAfter(s, album) then album
    else if DigitsAfter(s, onDemand) then onDemand
    else if DigitsAfter(s, Some(r)) then Some(r)
    else None
  }

  /** The Vimeo pattern tried at position `p`: the start of the captured digit run. */
  function VimeoAt(s: string, p: nat): (r: Option<nat>)
    ensures r.Some? ==> r.value <= |s| && r.value < DigitEnd(s, r.value)
    ensures r.Some? ==> LitAt(s, p, VimeoHost) || LitAt(s, p, PlayerPath)
  {
    var viaHost := if LitAt(s, p, VimeoHost) then VimeoPathThenDigits(s, p + |VimeoHost|) else None;
    if viaHost.Some? then viaHost
    else if LitAt(s, p, PlayerPath) && DigitsAt(s, p + |PlayerPath|).Some? then Some(p + |PlayerPath|)
    else None
  }

  /** The Vimeo pattern, leftmost match: the start of the captured digit run. */
  function FindVimeo(s: string): Option<Hit> {
    Leftmost((x: nat) => VimeoAt(s, x), 0, |s|)
  }

  // ---------------------------------------------------------------------------
  // getEmbedUrl

  const YouTubeEmbedBase: string := "https://www.youtube.com/embed/"
  const YouTubeEmbedQuery: string :=
    "?autoplay=1&modestbranding=1&rel=0&showinfo=0" + "&mute=0&enablejsapi=1&origin="
  const VimeoEmbedBase: string := "https://player.vimeo.com/video/"
  const VimeoEmbedQuery: string := "?autoplay=1&badge=0&autopause=0" + "&player_id=0&app_id=58479"

  function YouTubeEmbed(id: string, origin: string): string {
    YouTubeEmbedBase + id + YouTubeEmbedQuery + origin
  }

  function VimeoEmbed(digits: string): string {
    VimeoEmbedBase + digits + VimeoEmbedQuery
  }

  /** Which pattern decides the result, and what it captured. */
  datatype Resolution = YouTube(id: string) | Vimeo(digits: string) | Unmatched

  /**
   * The matching half of `getEmbedUrl`: YouTube first, anywhere in the text;
   * only when it matches nowhere, Vimeo.
   */
  function Resolve(url: string): (r: Resolution)
    ensures r.YouTube? ==> IsId(r.id) && Contains(url, r.id)
    ensures r.Vimeo? ==> r.digits != [] && (forall k :: 0 <= k < |r.digits| ==> IsDigit(r.digits[k]))
                         && Contains(url, r.digits)
  {
    match FindYouTube(url)
    case Some(hit) =>
      var id := url[hit.capture..hit.capture + IdLength];
      assert OccursAt(url, id, hit.capture);
      YouTube(id)
    case None =>
      match FindVimeo(url)
      case Some(hit) =>
        var digits := url[hit.capture..DigitEnd(url, hit.capture)];
        assert OccursAt(url, digits, hit.capture);
        Vimeo(digits)
      case None => Unmatched
  }

  /** `getEmbedUrl`, with `window.location.origin` as a parameter. */
  function EmbedUrl(url: string, origin: string): (r: string)
    ensures url == "" ==> r == ""
  {
    if url == "" then ""
    else match Resolve(url)
      case YouTube(id) => YouTubeEmbed(id, origin)
      case Vimeo(digits) => VimeoEmbed(digits)
      case Unmatched => url
  }

  // ---------------------------------------------------------------------------
  // Properties of getEmbedUrl

  /** A literal can only match where its first character does. */
  lemma LitAtHead(s: string, i: int, lit: string)
    ensures LitAt(s, i, lit) && |lit| > 0 ==> Fold(s[i]) == lit[0]
  {
  }

  /** The YouTube pattern can only match at a `y` or `Y`. */
  lemma YouTubeAtNeedsY(s: string, p: nat)
    ensures YouTubeAt(s, p).Some? ==> p < |s| && Fold(s[p]) == 'y'
  {
    LitAtHead(s, p, YouTubeHost);
    LitAtHead(s, p, ShortHost);
  }

  /** No YouTube match starts in a stretch without a `y` or `Y`. */
  lemma NoYouTubeWithoutY(s: string, lo: nat, hi: nat)
    requires forall x :: lo <= x < hi && x < |s| ==> Fold(s[x]) != 'y'
    ensures forall x :: lo <= x < hi ==> YouTubeAt(s, x).None?
  {
    forall x | lo <= x < hi ensures YouTubeAt(s, x).None? {
      YouTubeAtNeedsY(s, x);
    }
  }

  /** An id appended to a prefix is matched by the id class, character by character. */
  lemma IdAfterPrefix(prefix: string, id: string)
    requires IsId(id)
    ensures IdAt(prefix + id, |prefix|)
    ensures forall k :: |prefix| <= k < |prefix + id| ==> IsIdChar((prefix + id)[k])
  {
    var s := prefix + id;
    forall k | |prefix| <= k < |s| ensures IsIdChar(s[k]) {
      assert s[k] == id[k - |prefix|];
    }
  }

  const WatchPrefix: string := "https://www.youtube.com/watch?v="
  const ShortPrefix: string := "https://youtu.be/"

  /** The YouTube pattern finds a match exactly when it matches at some position. */
  lemma FindYouTubeFinds(s: string)
    ensures FindYouTube(s).None? <==> forall p :: 0 <= p <= |s| ==> YouTubeAt(s, p).None?
  {
    var at := (x: nat) => YouTubeAt(s, x);
    if FindYouTube(s).None? {
      forall p | 0 <= p <= |s| ensures YouTubeAt(s, p).None? {
        assert at(p).None?;
      }
    } else {
      var h := FindYouTube(s).value;
      assert at(h.at).Some?;
    }
  }

  /** The Vimeo pattern finds a match exactly when it matches at some position. */
  lemma FindVimeoFinds(s: string)
    ensures FindVimeo(s).None? <==> forall p :: 0 <= p <= |s| ==> VimeoAt(s, p).None?
  {
    var at := (x: nat) => VimeoAt(s, x);
    if FindVimeo(s).None? {
      forall p | 0 <= p <= |s| ensures VimeoAt(s, p).None? {
        assert at(p).None?;
      }
    } else {
      var h := FindVimeo(s).value;
      assert at(h.at).Some?;
    }
  }

  /** YouTube takes precedence: when its pattern matches anywhere, the Vimeo pattern is not consulted. */
  lemma YouTubeTakesPrecedence(url: string, origin: string, p: nat)
    requires p <= |url| && YouTubeAt(url, p).Some?
    ensures Resolve(url).YouTube?
    ensures EmbedUrl(url, origin) == YouTubeEmbed(Resolve(url).id, origin)
  {
    FindYouTubeFinds(url);
  }

  /** An address neither pattern matches anywhere is returned unchanged, and only such an address resolves to nothing. */
  lemma UnmatchedExactlyWithoutMatch(url: string, origin: string)
    ensures Resolve(url).Unmatched? <==>
              (forall p :: 0 <= p <= |url| ==> YouTubeAt(url, p).None?)
              && (forall p :: 0 <= p <= |url| ==> VimeoAt(url, p).None?)
    ensures Resolve(url).Unmatched? ==> EmbedUrl(url, origin) == url
  {
    FindYouTubeFinds(url);
    FindVimeoFinds(url);
  }

  /** At a position where the host matches and the first two alternatives after it fail, the third one's match is the match. */
  lemma YouTubeAtViaQuery(s: string, p: nat)
    requires LitAt(s, p, YouTubeHost)
    requires PathThenId(s, p + |YouTubeHost|).None? && PrefixThenId(s, p + |YouTubeHost|).None?
    requires QueryThenId(s, p + |YouTubeHost|).Some?
    ensures YouTubeAt(s, p) == QueryThenId(s, p + |YouTubeHost|)
  {
  }

  /** The `watch?v=` address has the host at 12. */
  lemma WatchHost(id: string)
    requires IsId(id)
    ensures LitAt(WatchPrefix + id, 12, YouTubeHost)
  {
    var s := WatchPrefix + id;
    forall k | 0 <= k < |YouTubeHost| ensures Fold(s[12 + k]) == YouTubeHost[k] {
      assert s[12 + k] == WatchPrefix[12 + k];
    }
  }

  /** `[^\/]+\/.+\/` fails after the host of a `watch?v=` address: no `/` follows. */
  lemma WatchNoPath(id: string)
    requires IsId(id)
    ensures PathThenId(WatchPrefix + id, 24).None?
  {
    var s := WatchPrefix + id;
    IdAfterPrefix(WatchPrefix, id);
    assert FirstSlash(s, 24).None? by {
      forall k | 24 <= k < |s| ensures s[k] != '/' {
        if k < |WatchPrefix| { assert s[k] == WatchPrefix[k]; }
      }
    }
  }

  /** `(?:v|e(?:mbed)?|shorts)\/` fails after the host of a `watch?v=` address: it goes on with `w`. */
  lemma WatchNoPrefix(id: string)
    requires IsId(id)
    ensures PrefixThenId(WatchPrefix + id, 24).None?
  {
    var s := WatchPrefix + id;
    assert s[24] == 'w';
    LitAtHead(s, 24, "v/");
    LitAtHead(s, 24, "embed/");
    LitAtHead(s, 24, "e/");
    LitAtHead(s, 24, "shorts/");
  }

  /** `.*[?&]v=` after the host of a `watch?v=` address ends at the `?v=`, and the id follows. */
  lemma WatchQuery(id: string)
    requires IsId(id)
    ensures QueryThenId(WatchPrefix + id, 24) == Some(32)
  {
    var s := WatchPrefix + id;
    IdAfterPrefix(WatchPrefix, id);
    assert LineEnd(s, 24) == |s| by {
      assert forall k :: 24 <= k < |s| ==> !IsLineTerminator(s[k]);
    }
    assert ParamBeforeId(s, 29) by {
      assert s[29] == '?' && s[30] == 'v' && s[31] == '=';
    }
    assert LastParamBeforeId(s, 24, |s|) == Some(29) by {
      forall m | 29 < m < |s| ensures !ParamBeforeId(s, m) {
        if m < |WatchPrefix| { assert s[m] == WatchPrefix[m]; }
      }
    }
  }

  /** The `watch?v=` address matches at the host, through the `.*[?&]v=` alternative. */
  lemma WatchMatchesAtHost(id: string)
    requires IsId(id)
    ensures YouTubeAt(WatchPrefix + id, 12) == Some(32)
  {
    WatchHost(id);
    WatchNoPath(id);
    WatchNoPrefix(id);
    WatchQuery(id);
    YouTubeAtViaQuery(WatchPrefix + id, 12);
  }

  /** The leftmost YouTube match in a `watch?v=` address is at the host. */
  lemma WatchFoundAtHost(id: string)
    requires IsId(id)
    ensures FindYouTube(WatchPrefix + id) == Some(Hit(12, 32))
  {
    var s := WatchPrefix + id;
    assert forall x :: 0 <= x < 12 ==> Fold(s[x]) != 'y' by {
      forall x | 0 <= x < 12 ensures Fold(s[x]) != 'y' {
        assert s[x] == WatchPrefix[x];
      }
    }
    NoYouTubeWithoutY(s, 0, 12);
    WatchMatchesAtHost(id);
    LeftmostIsFirst((x: nat) => YouTubeAt(s, x), |s|, 12);
  }

  /** Where the YouTube pattern matches, the address is embedded by the captured id. */
  lemma EmbedsYouTubeHit(url: string, origin: string, hit: Hit)
    requires FindYouTube(url) == Some(hit)
    ensures EmbedUrl(url, origin) == YouTubeEmbed(url[hit.capture..hit.capture + IdLength], origin)
  {
  }

  /** A `watch?v=` address is embedded by its id. */
  lemma WatchAddressEmbeds(id: string, origin: string)
    requires IsId(id)
    ensures EmbedUrl(WatchPrefix + id, origin) == YouTubeEmbed(id, origin)
  {
    var s := WatchPrefix + id;
    assert s[32..43] == id;
    WatchFoundAtHost(id);
    EmbedsYouTubeHit(s, origin, Hit(12, 32));
  }

  /** No match of the host literal at 8 of a `youtu.be/` address: its sixth character is a `.`. */
  lemma ShortHasNoLongHost(id: string)
    ensures !LitAt(ShortPrefix + id, 8, YouTubeHost)
  {
    var s := ShortPrefix + id;
    assert s[13] == '.';
    assert Fold(s[8 + 5]) != YouTubeHost[5];
  }

  /** The `youtu.be/` address matches at its host, through the short alternative. */
  lemma ShortMatchesAtHost(id: string)
    requires IsId(id)
    ensures YouTubeAt(ShortPrefix + id, 8) == Some(17)
  {
    var s := ShortPrefix + id;
    IdAfterPrefix(ShortPrefix, id);
    ShortHasNoLongHost(id);
    assert LitAt(s, 8, ShortHost) by {
      forall k | 0 <= k < |ShortHost| ensures Fold(s[8 + k]) == ShortHost[k] {
        assert s[8 + k] == ShortPrefix[8 + k];
      }
    }
  }

  /** The leftmost YouTube match in a `youtu.be/` address is at its host. */
  lemma ShortFoundAtHost(id: string)
    requires IsId(id)
    ensures FindYouTube(ShortPrefix + id) == Some(Hit(8, 17))
  {
    var s := ShortPrefix + id;
    assert forall x :: 0 <= x < 8 ==> Fold(s[x]) != 'y' by {
      forall x | 0 <= x < 8 ensures Fold(s[x]) != 'y' {
        assert s[x] == ShortPrefix[x];
      }
    }
    NoYouTubeWithoutY(s, 0, 8);
    ShortMatchesAtHost(id);
    LeftmostIsFirst((x: nat) => YouTubeAt(s, x), |s|, 8);
  }

  /** A `youtu.be/` address is embedded by its id. */
  lemma ShortAddressEmbeds(id: string, origin: string)
    requires IsId(id)
    ensures EmbedUrl(ShortPrefix + id, origin) == YouTubeEmbed(id, origin)
  {
    var s := ShortPrefix + id;
    assert s[17..28] == id;
    ShortFoundAtHost(id);
    EmbedsYouTubeHit(s, origin, Hit(8, 17));
  }

  /** The `watch?v=` and the `youtu.be/` forms of one video give the same player address. */
  lemma WatchAndShortAgree(id: string, origin: string)
    requires IsId(id)
    ensures EmbedUrl(WatchPrefix + id, origin) == EmbedUrl(ShortPrefix + id, origin)
  {
    WatchAddressEmbeds(id, origin);
    ShortAddressEmbeds(id, origin);
  }

  const VimeoPrefix: string := "https://vimeo.com/"

  /** A text of one or more digits. */
  predicate IsDigits(d: string) {
    d != [] && forall k :: 0 <= k < |d| ==> IsDigit(d[k])
  }

  /** Where only the Vimeo pattern matches, the address is embedded by the captured digits. */
  lemma EmbedsVimeoHit(url: string, origin: string, hit: Hit)
    requires FindYouTube(url).None? && FindVimeo(url) == Some(hit)
    ensures EmbedUrl(url, origin) == VimeoEmbed(url[hit.capture..DigitEnd(url, hit.capture)])
  {
  }

  /** A `vimeo.com/` address has no `y` anywhere, so the YouTube pattern finds nothing in it. */
  lemma VimeoAddressHasNoYouTube(digits: string)
    requires IsDigits(digits)
    ensures FindYouTube(VimeoPrefix + digits).None?
  {
    var s := VimeoPrefix + digits;
    assert forall x :: 0 <= x < |s| ==> Fold(s[x]) != 'y' by {
      forall x | 0 <= x < |s| ensures Fold(s[x]) != 'y' {
        if x < |VimeoPrefix| { assert s[x] == VimeoPrefix[x]; } else { assert s[x] == digits[x - |VimeoPrefix|]; }
      }
    }
    NoYouTubeWithoutY(s, 0, |s| + 1);
    FindYouTubeFinds(s);
  }

  /** The Vimeo pattern matches a `vimeo.com/` address at its host, through the empty group. */
  lemma VimeoMatchesAtHost(digits: string)
    requires IsDigits(digits)
    ensures VimeoAt(VimeoPrefix + digits, 8) == Some(18)
    ensures DigitEnd(VimeoPrefix + digits, 18) == |VimeoPrefix + digits|
  {
    var s := VimeoPrefix + digits;
    assert LitAt(s, 8, VimeoHost) by {
      forall k | 0 <= k < |VimeoHost| ensures Fold(s[8 + k]) == VimeoHost[k] {
        assert s[8 + k] == VimeoPrefix[8 + k];
      }
    }
    assert forall k :: 18 <= k < |s| ==> IsDigit(s[k]) by {
      forall k | 18 <= k < |s| ensures IsDigit(s[k]) {
        assert s[k] == digits[k - 18];
      }
    }
    assert IsDigit(s[18]);
    LitAtHead(s, 18, "channels/");
    LitAtHead(s, 18, "groups/");
    LitAtHead(s, 18, "album/");
    LitAtHead(s, 18, "ondemand/");
  }

  /** No Vimeo match starts in a stretch without a `v` and without a `p` followed by an `l`, in either case. */
  lemma NoVimeoWithout(s: string, lo: nat, hi: nat)
    requires forall x :: lo <= x < hi && x < |s| ==>
               Fold(s[x]) != 'v' && (Fold(s[x]) == 'p' ==> x + 1 < |s| && Fold(s[x + 1]) != 'l')
    ensures forall x :: lo <= x < hi ==> VimeoAt(s, x).None?
  {
    forall x | lo <= x < hi ensures VimeoAt(s, x).None? {
      LitAtHead(s, x, VimeoHost);
      LitAtHead(s, x, PlayerPath);
      if x < |s| && Fold(s[x]) == 'p' && LitAt(s, x, PlayerPath) {
        LitAtChar(s, x, PlayerPath, 1);
      }
      assert !LitAt(s, x, VimeoHost) && !LitAt(s, x, PlayerPath);
    }
  }

  /** No Vimeo match starts within `https://`. */
  lemma VimeoSchemeHasNoMatch(digits: string)
    ensures forall x :: 0 <= x < 8 ==> VimeoAt(VimeoPrefix + digits, x).None?
  {
    var s := VimeoPrefix + digits;
    forall x | 0 <= x < 8
      ensures Fold(s[x]) != 'v' && (Fold(s[x]) == 'p' ==> x + 1 < |s| && Fold(s[x + 1]) != 'l')
    {
      assert s[x] == VimeoPrefix[x] && s[x + 1] == VimeoPrefix[x + 1];
    }
    NoVimeoWithout(s, 0, 8);
  }

  /** The leftmost Vimeo match in a `vimeo.com/` address is at its host. */
  lemma VimeoFoundAtHost(digits: string)
    requires IsDigits(digits)
    ensures FindVimeo(VimeoPrefix + digits) == Some(Hit(8, 18))
  {
    VimeoSchemeHasNoMatch(digits);
    VimeoMatchesAtHost(digits);
    LeftmostIsFirst((x: nat) => VimeoAt(VimeoPrefix + digits, x), |VimeoPrefix + digits|, 8);
  }

  /** A `vimeo.com/` address is embedded by its digits. */
  lemma VimeoAddressEmbeds(digits: string, origin: string)
    requires IsDigits(digits)
    ensures EmbedUrl(VimeoPrefix + digits, origin) == VimeoEmbed(digits)
  {
    var s := VimeoPrefix + digits;
    assert s[18..|s|] == digits;
    VimeoAddressHasNoYouTube(digits);
    VimeoFoundAtHost(digits);
    VimeoMatchesAtHost(digits);
    EmbedsVimeoHit(s, origin, Hit(8, 18));
  }

  /** Every `player.vimeo.com/video/` match contains a `vimeo.com/` match seven characters on. */
  lemma PlayerPathHasHost(s: string, p: int)
    requires LitAt(s, p, PlayerPath)
    ensures LitAt(s, p + 7, VimeoHost)
  {
    forall k | 0 <= k < |VimeoHost| ensures Fold(s[p + 7 + k]) == VimeoHost[k] {
      LitAtChar(s, p, PlayerPath, 7 + k);
    }
  }

  /** An address that mentions none of the three hosts, in any case, is returned unchanged. */
  lemma NoHostUnchanged(url: string, origin: string)
    requires forall p :: !LitAt(url, p, YouTubeHost) && !LitAt(url, p, ShortHost) && !LitAt(url, p, VimeoHost)
    ensures EmbedUrl(url, origin) == url
  {
    forall p | 0 <= p <= |url| ensures VimeoAt(url, p).None? {
      if LitAt(url, p, PlayerPath) {
        PlayerPathHasHost(url, p);
      }
    }
    UnmatchedExactlyWithoutMatch(url, origin);
  }

  /** The default YouTube video is embedded by the id of its address. */
  lemma DefaultYouTubeEmbeds(origin: string)
    ensures App.DefaultItems[0].videoUrl.Some?
    ensures EmbedUrl(App.DefaultItems[0].videoUrl.value, origin) == YouTubeEmbed("dQw4w9WgXcQ", origin)
  {
    var url := App.DefaultItems[0].videoUrl.value;
    assert url == WatchPrefix + "dQw4w9WgXcQ";
    WatchAddressEmbeds("dQw4w9WgXcQ", origin);
  }

  /** The default Vimeo video is embedded by the number of its address. */
  lemma DefaultVimeoEmbeds(origin: string)
    ensures App.DefaultItems[2].videoUrl.Some?
    ensures EmbedUrl(App.DefaultItems[2].videoUrl.value, origin) == VimeoEmbed("148750015")
  {
    var url := App.DefaultItems[2].videoUrl.value;
    assert url == VimeoPrefix + "148750015";
    VimeoAddressEmbeds("148750015", origin);
  }

  // ---------------------------------------------------------------------------
  // Sharing

  /** The address of an item's share link: the page's address with the item's id as `asset`. */
  function ShareLink(item: PortfolioItem, origin: string, pathname: string): string {
    origin + pathname + "?asset=" + IntToDecimal(item.id)
  }

  /** The share link names the item: items with different ids get different links. */
  lemma ShareLinkIdentifiesItem(a: PortfolioItem, b: PortfolioItem, origin: string, pathname: string)
    ensures ShareLink(a, origin, pathname) == ShareLink(b, origin, pathname) ==> a.id == b.id
  {
    var page := origin + pathname + "?asset=";
    var x, y := IntToDecimal(a.id), IntToDecimal(b.id);
    assert ShareLink(a, origin, pathname) == page + x;
    assert ShareLink(b, origin, pathname) == page + y;
    if page + x == page + y {
      assert (page + x)[|page|..] == x && (page + y)[|page|..] == y;
    }
    IntToDecimalInjective(a.id, b.id);
  }

  /** The text shared with the link. */
  function ShareMessage(item: PortfolioItem): string {
    "Check out this elite production by JacksonCartel: " + item.title
  }

  const TwitterIntent: string := "https://twitter.com/intent/tweet?text="
  const LinkedInShare: string := "https://www.linkedin.com/sharing/share-offsite/?url="
  const WhatsAppShare: string := "https://wa.me/?text="

  /**
   * The address `shareOnSocial` opens for `platform`, when it has one;
   * `encode` is `encodeURIComponent`.
   */
  function ShareTarget(platform: string, item: PortfolioItem, origin: string, pathname: string,
                       encode: string -> string): (r: Option<string>)
    ensures r.Some? <==> platform in {"x", "linkedin", "whatsapp"}
  {
    var shareUrl := encode(ShareLink(item, origin, pathname));
    var text := encode(ShareMessage(item));
    if platform == "x" then Some(TwitterIntent + text + "&url=" + shareUrl)
    else if platform == "linkedin" then Some(LinkedInShare + shareUrl)
    else if platform == "whatsapp" then Some(WhatsAppShare + text + "%20" + shareUrl)
    else None
  }

  /** Every share address carries the encoded link to the item, at its end. */
  lemma ShareTargetEndsWithLink(platform: string, item: PortfolioItem, origin: string, pathname: string,
                                encode: string -> string)
    requires ShareTarget(platform, item, origin, pathname, encode).Some?
    ensures var r := ShareTarget(platform, item, origin, pathname, encode).value;
            var link := encode(ShareLink(item, origin, pathname));
            |link| <= |r| && r[|r| - |link|..] == link
  {
  }
}
