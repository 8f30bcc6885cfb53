/** The public reels section: the backend address it calls, the embed
    address it derives from each stored post link, and what it renders
    after its one fetch. */
module Reels {
  import opened Text
  import opened Records
  import Session

  // ---------------------------------------------------------------------
  // Backend address

  /** The configured address with one trailing slash removed (the pattern
      anchors at the end of the text only). */
  function DropTrailingSlash(s: string): (r: string)
    ensures s != [] && s[|s| - 1] == '/' ==> r + "/" == s
    ensures s == [] || s[|s| - 1] != '/' ==> r == s
  {
    if s != [] && s[|s| - 1] == '/' then s[..|s| - 1] else s
  }

  /** A leading `http:` (lower case only) replaced by `https:`. */
  function UpgradeScheme(s: string): (r: string)
    ensures !StartsWith(r, "http:")
    ensures StartsWith(s, "http:") ==> r == "https:" + s[5..]
    ensures !StartsWith(s, "http:") ==> r == s
  {
    if StartsWith(s, "http:") then
      var r := "https:" + s[5..];
      assert r[4] == 's';
      r
    else s
  }

  /** `BACKEND_URL`: an unset or empty setting becomes "". */
  function BackendUrl(env: Option<string>): (r: string)
    ensures !StartsWith(r, "http:")
    ensures env.None? ==> r == ""
  {
    UpgradeScheme(DropTrailingSlash(Session.JsOr(env, "")))
  }

  /** The normalised address never names plain http, and an address
      without a trailing slash or an http scheme is kept as it is. */
  lemma {:induction false} BackendUrlSpec(env: Option<string>)
    ensures !StartsWith(BackendUrl(env), "http:")
    ensures env.None? || env == Some("") ==> BackendUrl(env) == ""
    ensures env.Some? && env.value != [] && env.value[|env.value| - 1] != '/' && !StartsWith(env.value, "http:")
      ==> BackendUrl(env) == env.value
  {
  }

  /** Only one trailing slash is dropped, so normalising is not idempotent
      on an address ending in two. */
  lemma {:induction false} BackendUrlDropsOneSlash()
    ensures BackendUrl(Some("https://a//")) == "https://a/"
    ensures BackendUrl(Some(BackendUrl(Some("https://a//")))) == "https://a"
  {
    assert DropTrailingSlash("https://a//") == "https://a/";
    assert !StartsWith("https://a/", "http:") by {
      assert "https://a/"[4] != "http:"[4];
    }
    assert DropTrailingSlash("https://a/") == "https://a";
    assert !StartsWith("https://a", "http:") by {
      assert "https://a"[4] != "http:"[4];
    }
  }

  function ApiUrl(backendUrl: string): string {
    backendUrl + "/api"
  }

  // ---------------------------------------------------------------------
  // Embed address

  /** The characters that end a post identifier. */
  predicate IsStop(c: char) {
    c == '/' || c == '?' || c == '#' || c == '&'
  }

  /** Keyword `kw`, a slash and one identifier character start at `i`. */
  predicate AltAt(s: string, i: nat, kw: string) {
    i + |kw| + 1 < |s| && s[i..i + |kw|] == kw && s[i + |kw|] == '/' && !IsStop(s[i + |kw| + 1])
  }

  /** The first alternative of `reels|reel|p|tv` that matches at `i`. */
  function KeywordAt(s: string, i: nat): (r: Option<string>)
    ensures r.Some? ==> AltAt(s, i, r.value)
    ensures r.None? <==> !AltAt(s, i, "reels") && !AltAt(s, i, "reel") && !AltAt(s, i, "p") && !AltAt(s, i, "tv")
  {
    if AltAt(s, i, "reels") then Some("reels")
    else if AltAt(s, i, "reel") then Some("reel")
    else if AltAt(s, i, "p") then Some("p")
    else if AltAt(s, i, "tv") then Some("tv")
    else None
  }

  /** The length of the run of identifier characters starting at `j`. */
  function RunLength(s: string, j: nat): (n: nat)
    requires j <= |s|
    ensures j + n <= |s|
    ensures forall k :: j <= k < j + n ==> !IsStop(s[k])
    ensures j + n == |s| || IsStop(s[j + n])
    decreases |s| - j
  {
    if j == |s| || IsStop(s[j]) then 0 else 1 + RunLength(s, j + 1)
  }

  /** The captured identifier of a match at `i`: the longest run of
      identifier characters after the keyword and its slash. */
  function Group(s: string, i: nat): (id: string)
    requires KeywordAt(s, i).Some?
    ensures id != [] && forall c :: c in id ==> !IsStop(c)
  {
    var j := i + |KeywordAt(s, i).value| + 1;
    var n := RunLength(s, j);
    s[j..j + n]
  }

  /** The regular expression's search from position `i` on: the identifier
      captured at the leftmost position that matches. */
  function ScanFrom(s: string, i: nat): (r: Option<string>)
    requires i <= |s|
    ensures r.Some? <==> exists k :: i <= k < |s| && KeywordAt(s, k).Some?
    ensures r.Some? ==> exists k :: (i <= k < |s| && KeywordAt(s, k).Some?
      && (forall m :: i <= m < k ==> KeywordAt(s, m).None?)
      && r.value == Group(s, k))
    decreases |s| - i
  {
    if i == |s| then None
    else if KeywordAt(s, i).Some? then Some(Group(s, i))
    else
      var r := ScanFrom(s, i + 1);
      ScanStep(s, i, r);
      r
  }

  /** A position that does not match adds nothing to the search. */
  lemma {:induction false} ScanStep(s: string, i: nat, r: Option<string>)
    requires i < |s| && KeywordAt(s, i).None?
    requires r.Some? <==> exists k :: i + 1 <= k < |s| && KeywordAt(s, k).Some?
    requires r.Some? ==> exists k :: (i + 1 <= k < |s| && KeywordAt(s, k).Some?
      && (forall m :: i + 1 <= m < k ==> KeywordAt(s, m).None?)
      && r.value == Group(s, k))
    ensures r.Some? <==> exists k :: i <= k < |s| && KeywordAt(s, k).Some?
    ensures r.Some? ==> exists k :: (i <= k < |s| && KeywordAt(s, k).Some?
      && (forall m :: i <= m < k ==> KeywordAt(s, m).None?)
      && r.value == Group(s, k))
  {
    if r.Some? {
      var k :| i + 1 <= k < |s| && KeywordAt(s, k).Some?
        && (forall m :: i + 1 <= m < k ==> KeywordAt(s, m).None?)
        && r.value == Group(s, k);
      LeftmostStep(s, i, k);
    } else {
      NoMatchStep(s, i);
    }
  }

  lemma {:induction false} LeftmostStep(s: string, i: nat, k: nat)
    requires i < k < |s| && KeywordAt(s, i).None?
    requires forall m :: i + 1 <= m < k ==> KeywordAt(s, m).None?
    ensures forall m :: i <= m < k ==> KeywordAt(s, m).None?
  {
  }

  lemma {:induction false} NoMatchStep(s: string, i: nat)
    requires i < |s| && KeywordAt(s, i).None?
    requires !exists k :: i + 1 <= k < |s| && KeywordAt(s, k).Some?
    ensures !exists k :: i <= k < |s| && KeywordAt(s, k).Some?
  {
    assert forall k :: i + 1 <= k < |s| ==> KeywordAt(s, k).None?;
  }

  /** The embed page of a post, always under `/p/`. */
  function EmbedPage(id: string): string {
    "https://www.instagram.com/p/" + id + "/embed"
  }

  /** `getEmbedUrl`: nothing for a missing or empty link or one without a
      match; otherwise the embed page of the captured identifier, always
      under `/p/` whichever keyword matched. */
  function EmbedUrl(url: Option<string>): (r: Option<string>)
    ensures url.None? || url == Some("") ==> r.None?
    ensures r.Some? ==> exists id :: (id != [] && (forall c :: c in id ==> !IsStop(c))
      && r.value == EmbedPage(id))
  {
    if url.None? || url.value == "" then None
    else match ScanFrom(url.value, 0)
      case None => None
      case Some(id) => Some(EmbedPage(id))
  }

  /** The embed address is found exactly when some position matches, and
      it carries the identifier captured at the leftmost one. */
  lemma {:induction false} EmbedUrlSpec(url: string)
    requires url != ""
    ensures EmbedUrl(Some(url)).Some? <==> exists k :: 0 <= k < |url| && KeywordAt(url, k).Some?
    ensures EmbedUrl(Some(url)).Some? ==> exists k :: (0 <= k < |url| && KeywordAt(url, k).Some?
      && (forall m :: 0 <= m < k ==> KeywordAt(url, m).None?)
      && EmbedUrl(Some(url)).value == EmbedPage(Group(url, k)))
  {
  }

  /** No alternative matches where the text has none of their first
      letters. */
  lemma {:induction false} NoKeywordAt(s: string, i: nat)
    requires i < |s| && s[i] != 'r' && s[i] != 'p' && s[i] != 't'
    ensures KeywordAt(s, i).None?
  {
    forall kw | kw in ["reels", "reel", "p", "tv"] ensures !AltAt(s, i, kw) {
      if i + |kw| <= |s| {
        assert s[i..i + |kw|][0] == s[i] != kw[0];
      }
    }
  }

  /** A reel link is rewritten to the `/p/` form. */
  lemma {:induction false} EmbedReelExample()
    ensures EmbedUrl(Some("reel/A")) == Some(EmbedPage("A"))
  {
    var s := "reel/A";
    assert s[0..4] == "reel";
    assert KeywordAt(s, 0) == Some("reel");
    assert RunLength(s, 6) == 0;
    assert RunLength(s, 5) == 1;
    assert Group(s, 0) == s[5..6] == "A";
    assert ScanFrom(s, 0) == Some("A");
    assert s != "";
  }

  /** The keyword is matched anywhere, not only as a whole path segment:
      `shop/x` matches through its `p/`. (The link is a parameter pinned
      by the precondition rather than a literal, which keeps the solver
      from evaluating the scan on the literal and keeps the proof cheap.) */
  lemma {:induction false} EmbedInsideWordExample(s: string)
    requires s == "shop/x"
    ensures EmbedUrl(Some(s)) == Some(EmbedPage("x"))
  {
    ScanInsideWord(s);
    EmbedOfScan(s, "x");
  }

  lemma {:induction false} ScanInsideWord(s: string)
    requires s == "shop/x"
    ensures ScanFrom(s, 0) == Some("x")
  {
    NoKeywordAt(s, 0);
    NoKeywordAt(s, 1);
    NoKeywordAt(s, 2);
    ScanAtP(s);
    ScanSkips(s, 2);
    ScanSkips(s, 1);
    ScanSkips(s, 0);
  }

  lemma {:induction false} EmbedOfScan(url: string, id: string)
    requires url != "" && ScanFrom(url, 0) == Some(id)
    ensures EmbedUrl(Some(url)) == Some(EmbedPage(id))
  {
  }

  lemma {:induction false} ScanAtP(s: string)
    requires s == "shop/x"
    ensures ScanFrom(s, 3) == Some("x")
  {
    NoAlt(s, 3, "reels");
    NoAlt(s, 3, "reel");
    assert s[3..4] == "p";
    assert KeywordAt(s, 3) == Some("p");
    assert RunLength(s, 6) == 0;
    assert RunLength(s, 5) == 1;
    assert Group(s, 3) == s[5..6] == "x";
  }

  lemma {:induction false} NoAlt(s: string, i: nat, kw: string)
    requires i < |s| && kw != [] && s[i] != kw[0]
    ensures !AltAt(s, i, kw)
  {
    if i + |kw| <= |s| {
      assert s[i..i + |kw|][0] == s[i];
    }
  }

  lemma {:induction false} ScanSkips(s: string, i: nat)
    requires i < |s| && KeywordAt(s, i).None?
    ensures ScanFrom(s, i) == ScanFrom(s, i + 1)
  {
  }

  /** A link with no keyword followed by a slash has no embed. */
  lemma {:induction false} NoEmbedExample()
    ensures EmbedUrl(Some("a/b")).None?
  {
    var s := "a/b";
    NoKeywordAt(s, 0);
    NoKeywordAt(s, 1);
    NoKeywordAt(s, 2);
  }

  // ---------------------------------------------------------------------
  // What the section shows

  /** The section's state: the fetched reels, the loading flag and the
      error message. */
  datatype ReelsView = ReelsView(reels: seq<Reel>, loading: bool, error: Option<string>)

  const Initial: ReelsView := ReelsView([], true, None)

  /** How the one fetch ended. */
  datatype FetchOutcome = ArrayBody(items: seq<Reel>) | OtherBody | Failed

  /** The state after the fetch: an array body replaces the list, any other
      body leaves it, a failure sets the message; loading ends in every
      case. */
  function AfterFetch(v: ReelsView, outcome: FetchOutcome, backendUrl: string): (w: ReelsView)
    ensures !w.loading
    ensures outcome.ArrayBody? ==> w.reels == outcome.items && w.error == v.error
    ensures !outcome.ArrayBody? ==> w.reels == v.reels
    ensures outcome.Failed? ==> w.error == Some(FetchErrorMessage(backendUrl))
    ensures !outcome.Failed? ==> w.error == v.error
  {
    match outcome
    case ArrayBody(items) => v.(reels := items, loading := false)
    case OtherBody => v.(loading := false)
    case Failed => v.(loading := false, error := Some(FetchErrorMessage(backendUrl)))
  }

  /** The message shown when the fetch fails; it names the address tried. */
  function FetchErrorMessage(backendUrl: string): string {
    "Failed to load reels from " + ApiUrl(backendUrl) + "/reels. Please view directly on Instagram."
  }

  /** The empty-state panel: no reels at all (before the embed filter) and
      no longer loading. */
  predicate ShowsEmptyState(v: ReelsView) {
    |v.reels| == 0 && !v.loading
  }

  /** One rendered embed. */
  datatype Embed = Embed(key: string, src: string, title: string)

  /** The reel's link yields an embed address. */
  predicate HasEmbed(x: Reel) {
    EmbedUrl(Some(x.url)).Some?
  }

  /** The embed rendered for a reel whose link yields an address: keyed by
      the reel's id, the address with the tracking suffix, and the title or
      a stock one. */
  function EmbedOf(x: Reel): (e: Embed)
    requires HasEmbed(x)
    ensures e.key == x.id
  {
    Embed(x.id, EmbedUrl(Some(x.url)).value + "?utm_source=ig_web_copy_link", Session.JsOr(x.title, "Instagram Reel"))
  }

  /** The embeds rendered, in list order; a reel whose link gives no embed
      address is skipped. */
  function RenderedEmbeds(reels: seq<Reel>): (r: seq<Embed>)
    ensures |r| <= |reels|
    ensures forall e :: e in r ==> exists x :: (x in reels && x.id == e.key
      && EmbedUrl(Some(x.url)).Some?
      && e.src == EmbedUrl(Some(x.url)).value + "?utm_source=ig_web_copy_link"
      && e.title == Session.JsOr(x.title, "Instagram Reel"))
    ensures (forall x :: x in reels ==> EmbedUrl(Some(x.url)).Some?) ==> |r| == |reels|
  {
    if reels == [] then []
    else
      var x := reels[0];
      var rest := RenderedEmbeds(reels[1..]);
      assert forall y :: y in reels[1..] ==> y in reels;
      match EmbedUrl(Some(x.url))
      case None => rest
      case Some(u) => [Embed(x.id, u + "?utm_source=ig_web_copy_link", Session.JsOr(x.title, "Instagram Reel"))] + rest
  }

  /** `e` is the embed rendered for reel `x`. */
  predicate Renders(x: Reel, e: Embed) {
    HasEmbed(x) && e == EmbedOf(x)
  }

  /** The embeds are exactly those of the reels with an embed address,
      one each, in list order. */
  lemma {:induction false} RenderedEmbedsSpec(reels: seq<Reel>)
    ensures var r := RenderedEmbeds(reels);
      var k := Keep(reels, HasEmbed);
      && |r| == |k|
      && forall i :: 0 <= i < |r| ==> Renders(k[i], r[i])
  {
    if reels != [] {
      RenderedEmbedsSpec(reels[1..]);
      RenderedCons(reels);
      KeepCons(reels, HasEmbed);
      if HasEmbed(reels[0]) {
        PairwiseCons(reels[0], EmbedOf(reels[0]), Keep(reels[1..], HasEmbed), RenderedEmbeds(reels[1..]), Renders);
      }
    }
  }

  /** Rendering a non-empty list: the first reel's embed, if any, then the
      rest. */
  lemma {:induction false} RenderedCons(reels: seq<Reel>)
    requires reels != []
    ensures RenderedEmbeds(reels)
      == (if HasEmbed(reels[0]) then [EmbedOf(reels[0])] else []) + RenderedEmbeds(reels[1..])
  {
  }

  /** After the fetch, the empty state and the embeds never show together,
      but a list whose every link fails to match shows neither. */
  lemma {:induction false} EmptyStateExcludesEmbeds(v: ReelsView)
    ensures ShowsEmptyState(v) ==> RenderedEmbeds(v.reels) == []
    ensures !v.loading && v.reels != [] && (forall x :: x in v.reels ==> EmbedUrl(Some(x.url)).None?)
      ==> !ShowsEmptyState(v) && RenderedEmbeds(v.reels) == []
  {
    if !v.loading && v.reels != [] && (forall x :: x in v.reels ==> EmbedUrl(Some(x.url)).None?) {
      NothingRendered(v.reels);
    }
  }

  lemma {:induction false} NothingRendered(reels: seq<Reel>)
    requires forall x :: x in reels ==> EmbedUrl(Some(x.url)).None?
    ensures RenderedEmbeds(reels) == []
  {
    if reels != [] {
      assert forall y :: y in reels[1..] ==> y in reels;
      NothingRendered(reels[1..]);
    }
  }
}
