/** Where a blob is published and where it is read back: both come from one URL template. */
module SeedKey {
  import opened Wrappers
  import opened Blake
  import opened Text

  const TOKEN: string := "{blake3}"

  datatype KeyError = NoPath | NoToken

  datatype Result<+T> = Ok(value: T) | Err(error: KeyError)

  /** The text before and after the first occurrence of `pattern`. */
  function SplitOnce(s: string, pattern: string): (r: Option<(string, string)>)
    ensures r.Some? ==> s == r.value.0 + pattern + r.value.1
  {
    if pattern <= s then Some(([], s[|pattern|..]))
    else if s == [] then None
    else
      match SplitOnce(s[1..], pattern)
      case None => None
      case Some((before, after)) => Some(([s[0]] + before, after))
  }

  /** Every occurrence replaced, leftmost first and never overlapping. */
  function ReplaceAll(s: string, pattern: string, text: string): string
    requires pattern != []
  {
    if s == [] then []
    else if pattern <= s then text + ReplaceAll(s[|pattern|..], pattern, text)
    else [s[0]] + ReplaceAll(s[1..], pattern, text)
  }

  predicate StartsWithSlash(s: string) {
    s != [] && s[0] == '/'
  }

  function TrimStart(s: string, c: char): string {
    if s != [] && s[0] == c then TrimStart(s[1..], c) else s
  }

  function AfterScheme(template: string): string {
    match SplitOnce(template, "://")
    case Some((_, rest)) => rest
    case None => template
  }

  /** The object key of `hash` under a class's URL template. */
  function DeriveKey(template: string, hash: Hash): Result<string> {
    match SplitOnce(AfterScheme(template), "/")
    case None => Err(NoPath)
    case Some((_, path)) =>
      if !Contains(path, TOKEN) then Err(NoToken)
      else Ok(ReplaceAll(TrimStart(path, '/'), TOKEN, ToHex(hash)))
  }

  /** The URL from which the CDN source reads `hash` back. */
  function UrlFor(template: string, hash: Hash): string {
    ReplaceAll(template, TOKEN, ToHex(hash))
  }

  // ---------------------------------------------------------------- the two halves of a template

  function Path(template: string): string {
    match SplitOnce(AfterScheme(template), "/")
    case Some((_, path)) => path
    case None => ""
  }

  /** Scheme, host and the slash that ends them: everything before the path. */
  function Origin(template: string): string
    requires |Path(template)| <= |template|
  {
    template[..|template| - |Path(template)|]
  }

  lemma TemplateSplits(template: string, hash: Hash)
    requires DeriveKey(template, hash).Ok?
    ensures |Path(template)| < |template|
    ensures template == Origin(template) + Path(template)
    ensures Origin(template)[|Origin(template)| - 1] == '/'
    ensures Contains(Path(template), TOKEN)
  {
  }

  // ---------------------------------------------------------------- how replacement acts

  lemma TokenShape()
    ensures TOKEN == ['{', 'b', 'l', 'a', 'k', 'e', '3', '}']
  {
  }

  lemma TokenPrefix(a: string, b: string)
    requires a != [] && a[|a| - 1] == '/'
    ensures TOKEN <= a + b ==> TOKEN <= a && |TOKEN| < |a|
    ensures TOKEN <= a ==> TOKEN <= a + b
  {
    TokenShape();
    var s := a + b;
    assert s[|a| - 1] == '/';
    if TOKEN <= s {
      assert forall i :: 0 <= i < 8 ==> s[i] == TOKEN[i];
      assert |a| > 8;
      assert TOKEN == s[..8] == a[..8];
    }
    if TOKEN <= a {
      assert TOKEN == a[..8] == s[..8];
    }
  }

  lemma ReplaceStep(s: string, text: string)
    requires s != []
    ensures TOKEN <= s ==> ReplaceAll(s, TOKEN, text) == text + ReplaceAll(s[|TOKEN|..], TOKEN, text)
    ensures !(TOKEN <= s) ==> ReplaceAll(s, TOKEN, text) == [s[0]] + ReplaceAll(s[1..], TOKEN, text)
  {
  }

  lemma Reassociate(s: string, a: string, b: string, t: string, u: string)
    requires s == a + (t + u) && b == a + t
    ensures s == b + u
  {
  }

  /** No occurrence straddles a slash, so replacement works on either side of one separately. */
  lemma {:induction false} ReplaceAcrossSlash(a: string, b: string, text: string)
    requires a != [] ==> a[|a| - 1] == '/'
    ensures ReplaceAll(a + b, TOKEN, text) == ReplaceAll(a, TOKEN, text) + ReplaceAll(b, TOKEN, text)
  {
    if a == [] {
      assert a + b == b;
    } else {
      hide ReplaceAll;
      TokenPrefix(a, b);
      ReplaceStep(a + b, text);
      ReplaceStep(a, text);
      var k := if TOKEN <= a then |TOKEN| else 1;
      var rest := a[k..];
      var lead := if TOKEN <= a then text else [a[0]];
      assert (a + b)[k..] == rest + b;
      ReplaceAcrossSlash(rest, b, text);
      Reassociate(ReplaceAll(a + b, TOKEN, text), lead, ReplaceAll(a, TOKEN, text),
                  ReplaceAll(rest, TOKEN, text), ReplaceAll(b, TOKEN, text));
    }
  }

  lemma {:induction false} ReplaceLength(s: string, text: string)
    requires |text| > |TOKEN|
    ensures |ReplaceAll(s, TOKEN, text)| >= |s|
    ensures Contains(s, TOKEN) ==> |ReplaceAll(s, TOKEN, text)| > |s|
    ensures !Contains(s, TOKEN) ==> ReplaceAll(s, TOKEN, text) == s
  {
    if s != [] {
      if TOKEN <= s {
        ReplaceLength(s[|TOKEN|..], text);
      } else {
        ReplaceLength(s[1..], text);
        assert s == [s[0]] + s[1..];
      }
    }
  }

  lemma {:induction false} TrimKeepsTokens(path: string, text: string)
    ensures |TrimStart(path, '/')| <= |path|
    ensures var lead := |path| - |TrimStart(path, '/')|;
      && |ReplaceAll(path, TOKEN, text)| == lead + |ReplaceAll(TrimStart(path, '/'), TOKEN, text)|
      && (lead == 0 <==> !StartsWithSlash(path))
    ensures Contains(TrimStart(path, '/'), TOKEN) <==> Contains(path, TOKEN)
  {
    TokenShape();
    if path != [] && path[0] == '/' {
      TrimKeepsTokens(path[1..], text);
      assert !(TOKEN <= path);
    }
  }

  /** Trimming takes the leading slashes, all of them and nothing else. */
  lemma {:induction false} TrimTakesSlashes(path: string) returns (slashes: string)
    ensures path == slashes + TrimStart(path, '/') && !StartsWithSlash(TrimStart(path, '/'))
    ensures forall i :: 0 <= i < |slashes| ==> slashes[i] == '/'
  {
    if StartsWithSlash(path) {
      var rest := TrimTakesSlashes(path[1..]);
      slashes := ['/'] + rest;
      assert path == ['/'] + path[1..];
    } else {
      slashes := [];
      assert path == [] + path;
    }
  }

  lemma {:induction false} TrimOf(slashes: string, rest: string)
    requires (forall i :: 0 <= i < |slashes| ==> slashes[i] == '/') && !StartsWithSlash(rest)
    ensures TrimStart(slashes + rest, '/') == rest
  {
    if slashes == [] {
      assert slashes + rest == rest;
    } else {
      assert (slashes + rest)[1..] == slashes[1..] + rest;
      TrimOf(slashes[1..], rest);
    }
  }

  /** Up to the first token nothing changes; the token becomes the text; what follows is treated likewise. */
  lemma {:induction false} ReplaceFirst(before: string, rest: string, text: string)
    requires !Contains(before + TOKEN[..|TOKEN| - 1], TOKEN)
    ensures ReplaceAll(before + TOKEN + rest, TOKEN, text) == before + text + ReplaceAll(rest, TOKEN, text)
  {
    var s := before + TOKEN + rest;
    TokenShape();
    if before == [] {
      assert s == TOKEN + rest;
      assert s[|TOKEN|..] == rest;
    } else {
      var start := TOKEN[..|TOKEN| - 1];
      assert s[1..] == before[1..] + TOKEN + rest;
      assert (before + start)[1..] == before[1..] + start;
      assert !(TOKEN <= before + start);
      ReplaceFirst(before[1..], rest, text);
      assert before == [before[0]] + before[1..];
    }
  }

  /**
    A template with its parts in view: scheme, host, any number of slashes, and a path with one token. The key is the
    path with the hash for the token, and no slash in front.
   */
  lemma KeyOfTemplate(scheme: string, host: string, slashes: string, before: string, rest: string, hash: Hash)
    requires !Contains(scheme + ":/", "://") && !Contains(host, "/")
    requires forall i :: 0 <= i < |slashes| ==> slashes[i] == '/'
    requires !StartsWithSlash(before) && !Contains(before + TOKEN[..|TOKEN| - 1], TOKEN) && !Contains(rest, TOKEN)
    ensures DeriveKey(scheme + "://" + (host + "/" + (slashes + (before + TOKEN + rest))), hash)
         == Ok(before + ToHex(hash) + rest)
  {
    hide Contains, SplitOnce, ReplaceAll, TrimStart, ToHex;
    var path := before + TOKEN + rest;
    SplitsAtHost(scheme, host, slashes + path);
    KeyOfPath(slashes, before, rest, ToHex(hash));
  }

  lemma SplitsAtHost(scheme: string, host: string, path: string)
    requires !Contains(scheme + ":/", "://") && !Contains(host, "/")
    ensures var t := scheme + "://" + (host + "/" + path);
      SplitOnce(t, "://") == Some((scheme, host + "/" + path)) && SplitOnce(AfterScheme(t), "/") == Some((host, path))
  {
    hide Contains, SplitOnce;
    assert "://"[..2] == ":/" && host + "/"[..0] == host;
    SplitAtFirst(scheme, "://", host + "/" + path);
    SplitAtFirst(host, "/", path);
  }

  lemma KeyOfPath(slashes: string, before: string, rest: string, text: string)
    requires |text| > |TOKEN|
    requires forall i :: 0 <= i < |slashes| ==> slashes[i] == '/'
    requires !StartsWithSlash(before) && !Contains(before + TOKEN[..|TOKEN| - 1], TOKEN) && !Contains(rest, TOKEN)
    ensures var path := slashes + (before + TOKEN + rest);
      Contains(path, TOKEN) && ReplaceAll(TrimStart(path, '/'), TOKEN, text) == before + text + rest
  {
    hide Contains, SplitOnce, ReplaceAll, TrimStart;
    var path := before + TOKEN + rest;
    ContainsAround(slashes + before, TOKEN, rest);
    assert slashes + before + TOKEN + rest == slashes + path;
    TokenShape();
    assert path[0] == if before == [] then '{' else before[0];
    TrimOf(slashes, path);
    ReplaceFirst(before, rest, text);
    ReplaceLength(rest, text);
  }

  /** The split is where the first occurrence is. */
  lemma {:induction false} SplitAtFirst(before: string, pattern: string, rest: string)
    requires pattern != [] && !Contains(before + pattern[..|pattern| - 1], pattern)
    ensures SplitOnce(before + pattern + rest, pattern) == Some((before, rest))
  {
    var s := before + pattern + rest;
    if before == [] {
      assert s == pattern + rest;
      assert s[|pattern|..] == rest;
    } else {
      var start := pattern[..|pattern| - 1];
      assert s[1..] == before[1..] + pattern + rest;
      assert (before + start)[1..] == before[1..] + start;
      assert (before + start) <= s by { assert pattern == start + [pattern[|pattern| - 1]]; }
      assert !(pattern <= before + start);
      SplitAtFirst(before[1..], pattern, rest);
      assert before == [before[0]] + before[1..];
    }
  }

  // ---------------------------------------------------------------- publish and read-back

  /**
    The read-back URL is the origin followed by the published key exactly when the scheme and host hold no token and
    the path does not start with a further slash; this can be read off the template before anything is published.
   */
  lemma PublishMeetsReadBack(template: string, hash: Hash)
    requires DeriveKey(template, hash).Ok?
    ensures |Path(template)| <= |template|
    ensures UrlFor(template, hash) == Origin(template) + DeriveKey(template, hash).value
       <==> !Contains(Origin(template), TOKEN) && !StartsWithSlash(Path(template))
  {
    TemplateSplits(template, hash);
    var origin, path, hex := Origin(template), Path(template), ToHex(hash);
    ReplaceAcrossSlash(origin, path, hex);
    ReplaceLength(origin, hex);
    TrimKeepsTokens(path, hex);
  }

  lemma {:induction false} SplitsAtSlash(before: string, rest: string)
    requires '/' !in before
    ensures SplitOnce(before + ("/" + rest), "/") == Some((before, rest))
  {
    var s := before + ("/" + rest);
    if before == [] {
      assert s == "/" + rest;
      assert s[1..] == rest;
    } else {
      assert s[0] == before[0] != '/';
      assert s[1..] == before[1..] + ("/" + rest);
      SplitsAtSlash(before[1..], rest);
      assert before == [before[0]] + before[1..];
      assert !("/" <= s);
    }
  }

  lemma NoScheme(s: string)
    requires ':' !in s
    ensures AfterScheme(s) == s
  {
    SplitOnceFinds(s, "://");
    NoFirstNoPattern(s, "://");
  }

  /** The parts of a template without scheme. */
  lemma TemplateParts(host: string, path: string, hash: Hash)
    requires ':' !in host && ':' !in path && '/' !in host && Contains(path, TOKEN)
    ensures var t := host + ("/" + path);
      DeriveKey(t, hash).Ok? && Path(t) == path && |path| <= |t| && Origin(t) == host + "/"
  {
    hide Contains, ReplaceAll, TrimStart;
    var t := host + ("/" + path);
    NoScheme(t);
    SplitsAtSlash(host, path);
    assert t == (host + "/") + path;
  }

  /** An extra slash in front of the path: the published key and the URL that is read back part company. */
  lemma ExtraSlashDisagrees(hash: Hash)
    ensures var t := "h" + ("/" + ("/" + TOKEN));
      && DeriveKey(t, hash).Ok? && |Path(t)| <= |t|
      && UrlFor(t, hash) != Origin(t) + DeriveKey(t, hash).value
  {
    var path := "/" + TOKEN;
    assert path[1..] == TOKEN;
    assert Contains(path, TOKEN);
    hide Contains, ReplaceAll, TrimStart, DeriveKey, UrlFor, Origin, Path;
    TemplateParts("h", path, hash);
    PublishMeetsReadBack("h" + ("/" + path), hash);
  }

  /** So they do when the host holds a token. */
  lemma TokenInHostDisagrees(hash: Hash)
    ensures var t := TOKEN + ("/" + TOKEN);
      && DeriveKey(t, hash).Ok? && |Path(t)| <= |t|
      && UrlFor(t, hash) != Origin(t) + DeriveKey(t, hash).value
  {
    assert TOKEN <= TOKEN + "/";
    assert Contains(TOKEN, TOKEN) && Contains(TOKEN + "/", TOKEN);
    hide Contains, ReplaceAll, TrimStart, DeriveKey, UrlFor, Origin, Path;
    TemplateParts(TOKEN, TOKEN, hash);
    PublishMeetsReadBack(TOKEN + ("/" + TOKEN), hash);
  }

  /** Deriving a key fails on exactly the templates without a path or without a token in it, whatever the hash. */
  lemma DeriveKeyErrors(template: string, hash: Hash)
    ensures DeriveKey(template, hash) == Err(NoPath) <==> !Contains(AfterScheme(template), "/")
    ensures DeriveKey(template, hash) == Err(NoToken)
       <==> Contains(AfterScheme(template), "/") && !Contains(Path(template), TOKEN)
  {
    SplitOnceFinds(AfterScheme(template), "/");
  }

  lemma {:induction false} SplitOnceFinds(s: string, pattern: string)
    ensures SplitOnce(s, pattern).Some? <==> Contains(s, pattern)
  {
    if !(pattern <= s) && s != [] {
      SplitOnceFinds(s[1..], pattern);
    }
  }

  lemma {:induction false} TooShort(s: string, pattern: string)
    requires |s| < |pattern|
    ensures !Contains(s, pattern)
  {
    if s != [] { TooShort(s[1..], pattern); }
  }

  /** The split is at the first occurrence: what precedes it holds none, not even one that overlaps it. */
  lemma {:induction false} SplitOnceIsFirst(s: string, pattern: string)
    requires pattern != [] && SplitOnce(s, pattern).Some?
    ensures !Contains(SplitOnce(s, pattern).value.0 + pattern[..|pattern| - 1], pattern)
  {
    var start := pattern[..|pattern| - 1];
    if pattern <= s {
      TooShort([] + start, pattern);
    } else {
      var before, rest := SplitOnce(s, pattern).value.0, SplitOnce(s[1..], pattern).value.0;
      SplitOnceIsFirst(s[1..], pattern);
      var t := before + start;
      assert t[1..] == rest + start;
      assert t <= s by { assert s == before + pattern + SplitOnce(s, pattern).value.1; assert t == s[..|t|]; }
    }
  }

  lemma SchemeShape(template: string) returns (scheme: string)
    ensures template == scheme + AfterScheme(template)
    ensures if Contains(template, "://") then
              exists name :: scheme == name + "://" && !Contains(name + ":/", "://")
            else scheme == ""
  {
    hide Contains, SplitOnce;
    SplitOnceFinds(template, "://");
    var split := SplitOnce(template, "://");
    if split.Some? {
      SplitOnceIsFirst(template, "://");
      var name := split.value.0;
      assert "://"[..2] == ":/";
      scheme := name + "://";
      assert scheme == name + "://" && !Contains(name + ":/", "://");
    } else {
      scheme := "";
      assert scheme + template == template;
    }
  }

  lemma HostShape(template: string, hash: Hash) returns (host: string)
    requires DeriveKey(template, hash).Ok?
    ensures AfterScheme(template) == host + "/" + Path(template) && !Contains(host, "/")
  {
    hide Contains, SplitOnce, ReplaceAll, TrimStart, AfterScheme;
    SplitOnceIsFirst(AfterScheme(template), "/");
    host := SplitOnce(AfterScheme(template), "/").value.0;
    assert host + "/"[..0] == host;
  }

  /** The origin is an optional scheme that ends at the first `://`, then a host without a slash, then the slash. */
  lemma OriginShape(template: string, hash: Hash) returns (scheme: string, host: string)
    requires DeriveKey(template, hash).Ok?
    ensures |Path(template)| <= |template|
    ensures Origin(template) == scheme + host + "/"
    ensures !Contains(host, "/")
    ensures if Contains(template, "://") then
              exists name :: scheme == name + "://" && !Contains(name + ":/", "://")
            else scheme == ""
  {
    TemplateSplits(template, hash);
    hide *;
    scheme := SchemeShape(template);
    host := HostShape(template, hash);
    SameEnd(template, Origin(template), Path(template), scheme, host);
  }

  lemma SameEnd(s: string, origin: string, path: string, scheme: string, host: string)
    requires s == origin + path && s == scheme + (host + "/" + path)
    ensures origin == scheme + host + "/"
  {
    assert s == (scheme + host + "/") + path;
    assert origin == s[..|s| - |path|];
  }

  /** The first token of a path starts the first difference between two keys. */
  lemma {:induction false} ReplaceIsInjective(s: string, text: string, text': string)
    requires Contains(s, TOKEN) && |text| == |text'|
    requires ReplaceAll(s, TOKEN, text) == ReplaceAll(s, TOKEN, text')
    ensures text == text'
  {
    TokenShape();
    if TOKEN <= s {
      assert text == ReplaceAll(s, TOKEN, text)[..|text|];
      assert text' == ReplaceAll(s, TOKEN, text')[..|text|];
    } else {
      assert ReplaceAll(s[1..], TOKEN, text) == ReplaceAll(s, TOKEN, text)[1..];
      assert ReplaceAll(s[1..], TOKEN, text') == ReplaceAll(s, TOKEN, text')[1..];
      ReplaceIsInjective(s[1..], text, text');
    }
  }

  /** Different blobs are never published under one key. */
  lemma KeysAreDistinct(template: string, g: Hash, h: Hash)
    requires DeriveKey(template, g).Ok?
    ensures DeriveKey(template, h).Ok?
    ensures DeriveKey(template, g) == DeriveKey(template, h) <==> g == h
  {
    if DeriveKey(template, g) == DeriveKey(template, h) {
      TrimKeepsTokens(Path(template), ToHex(g));
      ReplaceIsInjective(TrimStart(Path(template), '/'), ToHex(g), ToHex(h));
      ToHexIsInjective(g, h);
    }
  }
}
