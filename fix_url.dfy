/**
 * URL normalisation (`fix_url`): a raw site reference from the input list is
 * turned into an absolute URL by forcing the `//` of a network location and
 * the `http:` scheme, unless it already names the `http:` or `https:` scheme.
 */
module UrlFix {

  predicate StartsWith(s: string, prefix: string)
  {
    |prefix| <= |s| && s[..|prefix|] == prefix
  }

  predicate EndsWith(s: string, suffix: string)
  {
    |suffix| <= |s| && s[|s| - |suffix|..] == suffix
  }

  /** The two schemes `fix_url` leaves alone. */
  predicate HasScheme(s: string)
  {
    StartsWith(s, "https:") || StartsWith(s, "http:")
  }

  /** One normalisation step: prepend a slash unless `s` already starts with `prefix`. */
  function SlashUnless(s: string, prefix: string): (r: string)
    ensures StartsWith(s, prefix) ==> r == s
    ensures !StartsWith(s, prefix) ==> |r| == |s| + 1 && r[0] == '/' && r[1..] == s
  {
    if StartsWith(s, prefix) then s else "/" + s
  }

  /** `fix_url`: the two slash steps, then the `http:` prefix, for scheme-less input. */
  function FixUrl(rawUrl: string): string
  {
    if !StartsWith(rawUrl, "https:") && !StartsWith(rawUrl, "http:") then
      "http:" + SlashUnless(SlashUnless(rawUrl, "/"), "//")
    else
      rawUrl
  }

  /** A reference that already names `http:` or `https:` is returned unchanged. */
  lemma FixUrlKeepsScheme(rawUrl: string)
    requires HasScheme(rawUrl)
    ensures FixUrl(rawUrl) == rawUrl
  {
  }

  /** Number of consecutive slashes `s` starts with. */
  function LeadingSlashes(s: string): (n: nat)
    ensures n <= |s|
    ensures forall k :: 0 <= k < n ==> s[k] == '/'
    ensures n < |s| ==> s[n] != '/'
  {
    if |s| > 0 && s[0] == '/' then 1 + LeadingSlashes(s[1..]) else 0
  }

  /** How many slashes `fix_url` adds: enough to reach two, and none past two. */
  function MissingSlashes(s: string): nat
  {
    if LeadingSlashes(s) >= 2 then 0 else 2 - LeadingSlashes(s)
  }

  function Slashes(n: nat): (r: string)
    ensures |r| == n && forall k :: 0 <= k < n ==> r[k] == '/'
  {
    seq(n, _ => '/')
  }

  /** No leading slash: both slash steps fire. */
  lemma ShapeNoSlash(rawUrl: string)
    requires !HasScheme(rawUrl) && LeadingSlashes(rawUrl) == 0
    ensures FixUrl(rawUrl) == "http:" + "//" + rawUrl
  {
    assert !StartsWith(rawUrl, "/") by {
      if |rawUrl| > 0 { assert rawUrl[0] != '/'; }
    }
    var first := SlashUnless(rawUrl, "/");
    assert !StartsWith(first, "//") by {
      if |first| >= 2 { assert first[1] == rawUrl[0] != '/'; }
    }
    assert "/" + first == "//" + rawUrl;
  }

  /** One leading slash: only the second step fires. */
  lemma ShapeOneSlash(rawUrl: string)
    requires !HasScheme(rawUrl) && LeadingSlashes(rawUrl) == 1
    ensures FixUrl(rawUrl) == "http:" + "/" + rawUrl
  {
    assert rawUrl[0] == '/';
    assert StartsWith(rawUrl, "/") by { assert rawUrl[..1] == "/"; }
    assert !StartsWith(rawUrl, "//") by {
      if |rawUrl| >= 2 { assert rawUrl[1] != '/'; }
    }
  }

  /** Two or more leading slashes: neither step fires. */
  lemma ShapeTwoSlashes(rawUrl: string)
    requires !HasScheme(rawUrl) && LeadingSlashes(rawUrl) >= 2
    ensures FixUrl(rawUrl) == "http:" + rawUrl
  {
    assert rawUrl[0] == '/' && rawUrl[1] == '/';
    assert rawUrl[..1] == "/";
    assert rawUrl[..2] == "//";
  }

  /**
   * The exact shape of a normalised scheme-less reference: `http:`, then two,
   * one or no extra slashes for input with none, one, or at least two leading
   * slashes, then the input itself.
   */
  lemma FixUrlShape(rawUrl: string)
    requires !HasScheme(rawUrl)
    ensures FixUrl(rawUrl) == "http:" + Slashes(MissingSlashes(rawUrl)) + rawUrl
  {
    var n := LeadingSlashes(rawUrl);
    if n == 0 {
      ShapeNoSlash(rawUrl);
      assert Slashes(2) == "//";
    } else if n == 1 {
      ShapeOneSlash(rawUrl);
      assert Slashes(1) == "/";
    } else {
      ShapeTwoSlashes(rawUrl);
      assert Slashes(0) == "";
      assert "http:" + Slashes(0) + rawUrl == "http:" + rawUrl;
    }
  }

  /** Every scheme-less reference comes out as `http://` followed by the untouched input. */
  lemma FixUrlNetworkLocation(rawUrl: string)
    requires !HasScheme(rawUrl)
    ensures StartsWith(FixUrl(rawUrl), "http://")
    ensures FixUrl(rawUrl)[|FixUrl(rawUrl)| - |rawUrl|..] == rawUrl
  {
    FixUrlShape(rawUrl);
    var url := FixUrl(rawUrl);
    if MissingSlashes(rawUrl) == 0 {
      assert rawUrl[0] == '/' && rawUrl[1] == '/';
      assert url[5] == rawUrl[0] && url[6] == rawUrl[1];
    } else if MissingSlashes(rawUrl) == 1 {
      assert rawUrl[0] == '/';
      assert url[6] == rawUrl[0];
    }
    assert url[..7] == "http://";
  }

  /** The result always names a scheme `fix_url` leaves alone, and ends with the input. */
  lemma FixUrlResult(rawUrl: string)
    ensures HasScheme(FixUrl(rawUrl))
    ensures EndsWith(FixUrl(rawUrl), rawUrl)
  {
    if !HasScheme(rawUrl) {
      FixUrlNetworkLocation(rawUrl);
      var url := FixUrl(rawUrl);
      assert url[..5] == "http:" by { assert url[..7][..5] == url[..5]; }
    }
  }

  /** Normalising twice is normalising once. */
  lemma FixUrlIdempotent(rawUrl: string)
    ensures FixUrl(FixUrl(rawUrl)) == FixUrl(rawUrl)
  {
    FixUrlResult(rawUrl);
  }

  /** A bare host name gains `http://`. */
  lemma FixUrlBareHost()
    ensures FixUrl("example.com") == "http://example.com"
  {
    var raw := "example.com";
    assert raw[0] == 'e';
    assert !StartsWith(raw, "https:") && !StartsWith(raw, "http:") && !StartsWith(raw, "/");
    var first := SlashUnless(raw, "/");
    assert first == "/" + raw && first[1] == 'e';
    assert !StartsWith(first, "//");
    assert "http:" + ("/" + first) == "http://example.com";
  }

  /** A rooted path gains `http:` and one more slash. */
  lemma FixUrlRootedPath()
    ensures FixUrl("/path") == "http://path"
  {
    assert !HasScheme("/path") by { assert "/path"[0] != 'h'; }
    FixUrlShape("/path");
    assert LeadingSlashes("/path") == 1 by {
      assert "/path"[1..] == "path";
      assert LeadingSlashes("path") == 0;
    }
    assert Slashes(1) == "/";
  }

  /** An https URL is left alone. */
  lemma FixUrlHttps()
    ensures FixUrl("https://x.com") == "https://x.com"
  {
    assert StartsWith("https://x.com", "https:") by {
      assert "https://x.com"[..6] == "https:";
    }
  }

}
