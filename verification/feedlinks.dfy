/**
 * The public feed links the client shows (src/lib/functionsClient.ts): the
 * configured feed base, its https guard in production, the trailing slashes
 * dropped from it, and the feed path and URL of a token. The build mode and
 * the environment variable are parameters.
 */
module FeedLinks {
  import opened JsText
  import opened RoutePath
  import Feed

  const DefaultPublicFeedBase := "https://icaltester.com"
  const HttpsRequired := "VITE_PUBLIC_FEED_BASE_URL must be https in production"
  const Scheme := "https://"

  /** The base the links use, or the error the module throws while loading. */
  datatype FeedBase = Base(url: string) | Misconfigured(message: string)

  /** `VITE_PUBLIC_FEED_BASE_URL || defaultPublicFeedBase`: an empty variable counts as unset. */
  function PublicFeedBase(env: Option<string>): (r: string)
    ensures r != []
    ensures Truthy(env) ==> r == env.value
    ensures !Truthy(env) ==> r == DefaultPublicFeedBase
  {
    if Truthy(env) then env.value else DefaultPublicFeedBase
  }

  /** The case folding of a case-insensitive regular expression, on the letters it meets here. */
  function FoldAscii(c: char): (r: char)
    ensures c != '\U{212A}' ==> r == LowerChar(c)
    ensures r < '\U{0080}' <==> c < '\U{0080}'
  {
    if 'A' <= c <= 'Z' then (c as int + 32) as char else c
  }

  /** `/^https:\/\//i`: the text opens with `https://` in any letter case. */
  predicate HasHttpsScheme(s: string)
  {
    |s| >= |Scheme| && forall i :: 0 <= i < |Scheme| ==> FoldAscii(s[i]) == Scheme[i]
  }

  /**
   * The case-insensitive test agrees with `toLowerCase` followed by a prefix
   * test: the only character the two fold differently, the Kelvin sign, matches
   * neither way, since the scheme holds no `k`.
   */
  lemma HttpsSchemeIsLowerPrefix(s: string)
    ensures HasHttpsScheme(s) <==> StartsWith(Lower(s), Scheme)
  {
    var l := Lower(s);
    if |s| >= |Scheme| {
      forall i | 0 <= i < |Scheme| ensures FoldAscii(s[i]) == Scheme[i] <==> l[i] == Scheme[i] {
        assert Scheme[i] != 'k';
      }
      if StartsWith(l, Scheme) {
        forall i | 0 <= i < |Scheme| ensures l[i] == Scheme[i] {
          assert l[..|Scheme|][i] == l[i];
        }
      }
      if HasHttpsScheme(s) {
        assert l[..|Scheme|] == Scheme;
      }
    }
  }

  /** `replace(/\/+$/, "")`: the run of slashes that ends the text is dropped. */
  function StripTrailingSlashes(s: string): (r: string)
    ensures r <= s
    ensures r == [] || r[|r| - 1] != '/'
    ensures forall i :: |r| <= i < |s| ==> s[i] == '/'
  {
    if s != [] && s[|s| - 1] == '/' then StripTrailingSlashes(s[..|s| - 1]) else s
  }

  /** What is dropped is exactly the final run of slashes: a text without one is kept whole. */
  lemma {:induction false} StripTrailingSlashesUnique(s: string, r: string)
    requires r <= s && (r == [] || r[|r| - 1] != '/')
    requires forall i :: |r| <= i < |s| ==> s[i] == '/'
    ensures StripTrailingSlashes(s) == r
    decreases |s|
  {
    if |s| > |r| {
      assert s[..|s| - 1][..|r|] == s[..|r|];
      StripTrailingSlashesUnique(s[..|s| - 1], r);
    } else {
      assert s == r;
    }
  }

  /** Dropping the slashes a second time changes nothing. */
  lemma StripTrailingSlashesIdempotent(s: string)
    ensures StripTrailingSlashes(StripTrailingSlashes(s)) == StripTrailingSlashes(s)
  {
    var r := StripTrailingSlashes(s);
    StripTrailingSlashesUnique(r, r);
  }

  /** Slashes added after a base are all dropped again. */
  lemma StripAddedSlashes(base: string, n: nat)
    requires base == [] || base[|base| - 1] != '/'
    ensures StripTrailingSlashes(base + seq(n, _ => '/')) == base
  {
    var s := base + seq(n, _ => '/');
    assert s[..|base|] == base;
    forall i | |base| <= i < |s| ensures s[i] == '/' {
      assert s[i] == seq(n, _ => '/')[i - |base|];
    }
    StripTrailingSlashesUnique(s, base);
  }

  /**
   * The module's load: the base is rejected in production unless it is https,
   * and is otherwise kept without its trailing slashes.
   */
  function NormalizedPublicFeedBase(env: Option<string>, production: bool): (r: FeedBase)
    ensures r.Misconfigured? <==> production && !HasHttpsScheme(PublicFeedBase(env))
    ensures r.Misconfigured? ==> r.message == HttpsRequired
    ensures r.Base? ==> r.url <= PublicFeedBase(env) && (r.url == [] || r.url[|r.url| - 1] != '/')
  {
    var base := PublicFeedBase(env);
    if production && !HasHttpsScheme(base) then Misconfigured(HttpsRequired)
    else Base(StripTrailingSlashes(base))
  }

  /** Without configuration the links point at the public site, in every build. */
  lemma DefaultBaseAccepted(production: bool)
    ensures NormalizedPublicFeedBase(None, production) == Base(DefaultPublicFeedBase)
  {
    assert HasHttpsScheme(DefaultPublicFeedBase) by {
      assert DefaultPublicFeedBase[..|Scheme|] == Scheme;
    }
    StripTrailingSlashesUnique(DefaultPublicFeedBase, DefaultPublicFeedBase);
  }

  /**
   * A production base that passes the guard still opens with `https:` once its
   * trailing slashes are gone: the colon stops the run of slashes.
   */
  lemma ProductionBaseKeepsScheme(env: Option<string>)
    requires NormalizedPublicFeedBase(env, true).Base?
    ensures var url := NormalizedPublicFeedBase(env, true).url;
      |url| >= 6 && forall i :: 0 <= i < 6 ==> FoldAscii(url[i]) == Scheme[i]
  {
    var base := PublicFeedBase(env);
    var url := StripTrailingSlashes(base);
    assert FoldAscii(base[5]) == Scheme[5] == ':';
    assert base[5] != '/';
    assert |url| >= 6;
    forall i | 0 <= i < 6 ensures FoldAscii(url[i]) == Scheme[i] {
      assert url[i] == base[i];
    }
  }

  /** `publicIcsPath`. */
  function PublicIcsPath(token: string): (r: string)
    ensures |r| == |"/ics-feed/"| + |token| && r[|r| - |token|..] == token
  {
    "/ics-feed/" + token
  }

  /** `publicIcsUrl`: the normalized base followed by the token's path. */
  function PublicIcsUrl(base: string, token: string): (r: string)
    ensures |r| == |base| + |PublicIcsPath(token)|
    ensures r[..|base|] == base && r[|base|..] == PublicIcsPath(token)
  {
    base + PublicIcsPath(token)
  }

  /** A link joins its base and its path with exactly one slash. */
  lemma OneSlashAfterBase(env: Option<string>, production: bool, token: string)
    requires NormalizedPublicFeedBase(env, production).Base?
    ensures var base := NormalizedPublicFeedBase(env, production).url;
      var u := PublicIcsUrl(base, token);
      u[|base|] == '/' && (base == [] || u[|base| - 1] != '/')
  {
    var base := NormalizedPublicFeedBase(env, production).url;
    var u := PublicIcsUrl(base, token);
    assert u[|base|] == PublicIcsPath(token)[0];
  }

  /** The feed function reads the token of a link's path back, for a token that is one path segment. */
  lemma PublicIcsPathRoundTrip(token: string)
    requires token != [] && '/' !in token
    ensures Feed.FeedToken(PublicIcsPath(token)) == Some(token)
  {
    assert PlainSegments([token]);
    Feed.FeedTokenOfPath([], token, []);
    assert [] + [Feed.FunctionName] + ([token] + []) == [Feed.FunctionName, token];
    PublicIcsPathIsPath(token);
  }

  lemma PublicIcsPathIsPath(token: string)
    ensures PathOf([Feed.FunctionName, token]) == PublicIcsPath(token)
  {
    var segs := [Feed.FunctionName, token];
    assert segs[1..] == [token];
    assert Join(segs, "/") == Feed.FunctionName + "/" + token;
  }
}
