/** The strings that AWS Signature Version 4 signs for one object request. SHA-256 is a parameter. */
module Signing {
  import opened Wrappers
  import opened AmzTime
  import opened UriEncoding

  datatype R2Target = R2Target(endpoint: string, bucket: string, region: string)

  function StripPrefix(s: string, prefix: string): Option<string> {
    if prefix <= s then Some(s[|prefix|..]) else None
  }

  function TrimEnd(s: string, c: char): string {
    if s != [] && s[|s| - 1] == c then TrimEnd(s[..|s| - 1], c) else s
  }

  /** A target as it is made from settings: the endpoint loses its trailing slashes. */
  function NewTarget(endpoint: string, bucket: string, region: string): R2Target {
    R2Target(TrimEnd(endpoint, '/'), bucket, region)
  }

  /** The URL that the request is sent to. */
  function RequestUrl(target: R2Target, key: string): string {
    target.endpoint + ("/" + (target.bucket + ("/" + key)))
  }

  function Host(target: R2Target): string {
    match StripPrefix(target.endpoint, "https://")
    case Some(host) => host
    case None =>
      match StripPrefix(target.endpoint, "http://")
      case Some(host) => host
      case None => target.endpoint
  }

  predicate Signable(target: R2Target, key: string) {
    IsBytes(target.bucket) && IsBytes(key)
  }

  function ObjectPath(target: R2Target, key: string): (path: string)
    requires Signable(target, key)
    ensures IsBytes(path)
  {
    target.bucket + ("/" + key)
  }

  function CanonicalUri(target: R2Target, key: string): string
    requires Signable(target, key)
  {
    "/" + EncodeBySegments(ObjectPath(target, key))
  }

  const SIGNED_HEADERS: string := "host;x-amz-content-sha256;x-amz-date"

  function CanonicalHeaders(target: R2Target, payloadHash: string, amzDate: string): string {
    "host:" + (Host(target) + ("\n" + ("x-amz-content-sha256:" + (payloadHash + ("\n"
    + ("x-amz-date:" + (amzDate + "\n")))))))
  }

  function CanonicalRequest(target: R2Target, verb: string, key: string, payloadHash: string, unixSecs: nat): string
    requires Signable(target, key)
  {
    verb + ("\n" + (CanonicalUri(target, key) + ("\n" + ("\n"
    + (CanonicalHeaders(target, payloadHash, FormatAmzTime(unixSecs).amzDate)
    + ("\n" + (SIGNED_HEADERS + ("\n" + payloadHash))))))))
  }

  function Scope(target: R2Target, dateStamp: string): string {
    dateStamp + ("/" + (target.region + "/s3/aws4_request"))
  }

  function StringToSign(sha256Hex: string -> string, target: R2Target, verb: string, key: string,
                        payloadHash: string, unixSecs: nat): string
    requires Signable(target, key)
  {
    var stamp := FormatAmzTime(unixSecs);
    "AWS4-HMAC-SHA256\n" + (stamp.amzDate + ("\n" + (Scope(target, stamp.dateStamp) + ("\n"
    + sha256Hex(CanonicalRequest(target, verb, key, payloadHash, unixSecs))))))
  }

  // ---------------------------------------------------------------- what the strings say

  /** A host name: nothing that is stripped from it. */
  predicate IsHost(host: string) {
    host != [] && host[|host| - 1] != '/' && !("https://" <= host) && !("http://" <= host)
  }

  predicate AllSlashes(s: string) {
    forall i :: 0 <= i < |s| ==> s[i] == '/'
  }

  lemma {:induction false} TrimsSlashes(s: string, slashes: string)
    requires s != [] && s[|s| - 1] != '/' && AllSlashes(slashes)
    ensures TrimEnd(s + slashes, '/') == s
    decreases |slashes|
  {
    if slashes == [] {
      assert s + slashes == s;
    } else {
      var t := s + slashes;
      assert t[..|t| - 1] == s + slashes[..|slashes| - 1];
      assert t[|t| - 1] == slashes[|slashes| - 1];
      TrimsSlashes(s, slashes[..|slashes| - 1]);
    }
  }

  /** Whether the endpoint is given with a scheme or without, and however many slashes end it, the host is the host. */
  lemma HostOfEndpoint(scheme: string, host: string, slashes: string, bucket: string, region: string)
    requires scheme == "https://" || scheme == "http://" || scheme == ""
    requires IsHost(host) && AllSlashes(slashes)
    ensures NewTarget(scheme + host + slashes, bucket, region) == R2Target(scheme + host, bucket, region)
    ensures Host(NewTarget(scheme + host + slashes, bucket, region)) == host
  {
    TrimsSlashes(scheme + host, slashes);
    HostAfter(scheme, host, bucket, region);
  }

  lemma HostAfter(scheme: string, host: string, bucket: string, region: string)
    requires scheme == "https://" || scheme == "http://" || scheme == ""
    requires !("https://" <= host) && !("http://" <= host)
    ensures Host(R2Target(scheme + host, bucket, region)) == host
  {
    if scheme == "" {
      assert "" + host == host;
    } else {
      assert (scheme + host)[|scheme|..] == host;
      if scheme == "http://" {
        assert (scheme + host)[4] == ':' && "https://"[4] == 's';
      }
    }
  }

  /** The path that is signed decodes to the path of the URL that the request is sent to. */
  lemma SignedPathIsSent(target: R2Target, key: string)
    requires Signable(target, key)
    ensures target.endpoint <= RequestUrl(target, key)
    ensures Decode(CanonicalUri(target, key)) == Some(RequestUrl(target, key)[|target.endpoint|..])
  {
    var p := ObjectPath(target, key);
    SegmentsAreOnePass(p);
    DecodeRestores(p);
    hide EncodePath, Decode;
    DecodeSlash(EncodePath(p));
  }

  lemma DecodeSlash(s: string)
    ensures Decode("/" + s) == Prepend('/', Decode(s))
  {
    assert ("/" + s)[1..] == s;
  }

  lemma LineOf(line: string, rest: string)
    requires '\n' !in line
    ensures Split(line + ("\n" + rest), '\n') == [line] + Split(rest, '\n')
    ensures Split(line, '\n') == [line]
  {
    SplitFirst(line, rest, '\n');
    assert ['\n'] + rest == "\n" + rest;
  }

  /** The header lines of a canonical request, each with its name, and the empty line that ends them. */
  lemma HeaderLines(target: R2Target, payloadHash: string, amzDate: string, rest: string)
    requires '\n' !in Host(target) && '\n' !in payloadHash && '\n' !in amzDate
    ensures Split(CanonicalHeaders(target, payloadHash, amzDate) + rest, '\n')
         == ["host:" + Host(target), "x-amz-content-sha256:" + payloadHash, "x-amz-date:" + amzDate]
            + Split(rest, '\n')
  {
    hide Split, Host;
    var host, sha, date := "host:" + Host(target), "x-amz-content-sha256:" + payloadHash, "x-amz-date:" + amzDate;
    var afterDate := rest;
    var afterSha := date + ("\n" + afterDate);
    var afterHost := sha + ("\n" + afterSha);
    assert CanonicalHeaders(target, payloadHash, amzDate) + rest == host + ("\n" + afterHost);
    LineOf(host, afterHost);
    LineOf(sha, afterSha);
    LineOf(date, afterDate);
  }

  /**
    The lines of a canonical request: verb, path, empty query, the three signed headers with their values, an empty
    line, the names of the signed headers, and the hash of the payload.
   */
  lemma RequestLines(target: R2Target, verb: string, key: string, payloadHash: string, unixSecs: nat)
    requires Signable(target, key) && '\n' !in verb && '\n' !in Host(target) && '\n' !in payloadHash
    ensures Split(CanonicalRequest(target, verb, key, payloadHash, unixSecs), '\n')
         == [verb, CanonicalUri(target, key), "", "host:" + Host(target), "x-amz-content-sha256:" + payloadHash,
             "x-amz-date:" + FormatAmzTime(unixSecs).amzDate, "", "host;x-amz-content-sha256;x-amz-date", payloadHash]
  {
    hide Split, Host, CanonicalUri, FormatAmzTime, CanonicalHeaders;
    var amzDate, uri := FormatAmzTime(unixSecs).amzDate, CanonicalUri(target, key);
    var names := "host;x-amz-content-sha256;x-amz-date";
    var end := names + ("\n" + payloadHash);
    var afterQuery := CanonicalHeaders(target, payloadHash, amzDate) + ("" + ("\n" + end));
    StampHasNoNewline(unixSecs);
    CanonicalUriIsInjective(target, key, key);
    assert "" + ("\n" + end) == "\n" + end;
    LineOf(verb, uri + ("\n" + ("" + ("\n" + afterQuery))));
    LineOf(uri, "" + ("\n" + afterQuery));
    LineOf("", afterQuery);
    HeaderLines(target, payloadHash, amzDate, "" + ("\n" + end));
    LineOf("", end);
    LineOf(names, payloadHash);
    LineOf(payloadHash, "");
    assert "" + ("\n" + afterQuery) == "\n" + afterQuery;
  }

  /** The lines of the string that is signed: algorithm, time, scope, and the hash of the canonical request. */
  lemma StringToSignLines(sha256Hex: string -> string, target: R2Target, verb: string, key: string, payloadHash: string,
                          unixSecs: nat)
    requires Signable(target, key) && '\n' !in target.region
    requires '\n' !in sha256Hex(CanonicalRequest(target, verb, key, payloadHash, unixSecs))
    ensures var stamp := FormatAmzTime(unixSecs);
      Split(StringToSign(sha256Hex, target, verb, key, payloadHash, unixSecs), '\n')
      == ["AWS4-HMAC-SHA256", stamp.amzDate, Join([stamp.dateStamp, target.region, "s3", "aws4_request"], '/'),
          sha256Hex(CanonicalRequest(target, verb, key, payloadHash, unixSecs))]
  {
    hide Split, FormatAmzTime, CanonicalRequest;
    var stamp := FormatAmzTime(unixSecs);
    var hash := sha256Hex(CanonicalRequest(target, verb, key, payloadHash, unixSecs));
    var scope := Scope(target, stamp.dateStamp);
    StampHasNoNewline(unixSecs);
    ScopeIs(target, stamp.dateStamp);
    var afterAlgorithm := stamp.amzDate + ("\n" + (scope + ("\n" + hash)));
    assert StringToSign(sha256Hex, target, verb, key, payloadHash, unixSecs)
        == "AWS4-HMAC-SHA256" + ("\n" + afterAlgorithm);
    LineOf("AWS4-HMAC-SHA256", afterAlgorithm);
    LineOf(stamp.amzDate, scope + ("\n" + hash));
    LineOf(scope, hash);
    LineOf(hash, "");
  }

  lemma ScopeIs(target: R2Target, dateStamp: string)
    ensures Scope(target, dateStamp) == Join([dateStamp, target.region, "s3", "aws4_request"], '/')
    ensures '\n' !in dateStamp && '\n' !in target.region ==> '\n' !in Scope(target, dateStamp)
  {
    var end := Join(["s3", "aws4_request"], '/');
    assert end == "s3/aws4_request";
    assert Join([target.region, "s3", "aws4_request"], '/') == target.region + ("/" + end) by {
      assert [target.region, "s3", "aws4_request"][1..] == ["s3", "aws4_request"];
    }
    assert [dateStamp, target.region, "s3", "aws4_request"][1..] == [target.region, "s3", "aws4_request"];
    assert "/" + end == "/s3/aws4_request";
  }

  // ---------------------------------------------------------------- taking the strings apart again

  lemma {:induction false} LineSplits(a: string, s: string, b: string, t: string)
    requires '\n' !in a && '\n' !in b && a + ("\n" + s) == b + ("\n" + t)
    ensures a == b && s == t
  {
    var x, y := a + ("\n" + s), b + ("\n" + t);
    assert x[|a|] == '\n' && y[|b|] == '\n';
    assert forall i :: 0 <= i < |a| ==> x[i] == a[i];
    assert forall i :: 0 <= i < |b| ==> y[i] == b[i];
    assert |a| == |b|;
    assert a == x[..|a|] && b == y[..|a|];
    assert s == x[|a| + 1..] && t == y[|a| + 1..];
  }

  lemma CommonPrefix(p: string, s: string, t: string)
    requires p + s == p + t
    ensures s == t
  {
    assert s == (p + s)[|p|..] && t == (p + t)[|p|..];
  }

  lemma CanonicalUriIsInjective(target: R2Target, key: string, key': string)
    requires Signable(target, key) && Signable(target, key')
    ensures '\n' !in CanonicalUri(target, key)
    ensures CanonicalUri(target, key) == CanonicalUri(target, key') ==> key == key'
  {
    var p, p' := ObjectPath(target, key), ObjectPath(target, key');
    SegmentsAreOnePass(p);
    SegmentsAreOnePass(p');
    DecodeRestores(p);
    DecodeRestores(p');
    if CanonicalUri(target, key) == CanonicalUri(target, key') {
      CommonPrefix("/", EncodePath(p), EncodePath(p'));
      assert p == p';
      CommonPrefix(target.bucket, "/" + key, "/" + key');
      CommonPrefix("/", key, key');
    }
  }

  lemma HeadersSplit(target: R2Target, ph: string, date: string, s: string, ph': string, date': string, s': string)
    requires '\n' !in ph && '\n' !in ph' && '\n' !in date && '\n' !in date'
    requires CanonicalHeaders(target, ph, date) + s == CanonicalHeaders(target, ph', date') + s'
    ensures ph == ph' && date == date' && s == s'
  {
    var dates, dates' := "x-amz-date:" + (date + ("\n" + s)), "x-amz-date:" + (date' + ("\n" + s'));
    var lead := "host:" + (Host(target) + ("\n" + "x-amz-content-sha256:"));
    assert CanonicalHeaders(target, ph, date) + s == lead + (ph + ("\n" + dates));
    assert CanonicalHeaders(target, ph', date') + s' == lead + (ph' + ("\n" + dates'));
    CommonPrefix(lead, ph + ("\n" + dates), ph' + ("\n" + dates'));
    LineSplits(ph, dates, ph', dates');
    CommonPrefix("x-amz-date:", date + ("\n" + s), date' + ("\n" + s'));
    LineSplits(date, s, date', s');
  }

  lemma StampHasNoNewline(unixSecs: nat)
    ensures '\n' !in FormatAmzTime(unixSecs).amzDate
    ensures '\n' !in FormatAmzTime(unixSecs).dateStamp
  {
    StampAlphabet(unixSecs);
  }

  /** For one target, equal canonical requests are the same request at the same second. */
  lemma CanonicalRequestIsUnambiguous(target: R2Target,
                                      verb: string, key: string, ph: string, u: nat,
                                      verb': string, key': string, ph': string, u': nat)
    requires Signable(target, key) && Signable(target, key')
    requires '\n' !in verb && '\n' !in verb' && '\n' !in ph && '\n' !in ph'
    requires CanonicalRequest(target, verb, key, ph, u) == CanonicalRequest(target, verb', key', ph', u')
    ensures verb == verb' && key == key' && ph == ph' && u == u'
  {
    hide CanonicalUri, CanonicalHeaders, FormatAmzTime;
    var date, date' := FormatAmzTime(u).amzDate, FormatAmzTime(u').amzDate;
    var uri, uri' := CanonicalUri(target, key), CanonicalUri(target, key');
    var end, end' := "\n" + (SIGNED_HEADERS + ("\n" + ph)), "\n" + (SIGNED_HEADERS + ("\n" + ph'));
    var heads, heads' := CanonicalHeaders(target, ph, date), CanonicalHeaders(target, ph', date');
    LineSplits(verb, uri + ("\n" + ("\n" + (heads + end))), verb', uri' + ("\n" + ("\n" + (heads' + end'))));
    CanonicalUriIsInjective(target, key, key');
    CanonicalUriIsInjective(target, key', key);
    LineSplits(uri, "\n" + (heads + end), uri', "\n" + (heads' + end'));
    CommonPrefix("\n", heads + end, heads' + end');
    StampHasNoNewline(u);
    StampHasNoNewline(u');
    HeadersSplit(target, ph, date, end, ph', date', end');
    StampIsInjective(u, u');
  }

  /**
    So is the string that is signed, as long as SHA-256 tells the two canonical requests apart. A region is one
    fixed string for the target, and may hold anything.
   */
  lemma StringToSignIsUnambiguous(sha256Hex: string -> string, target: R2Target,
                                  verb: string, key: string, ph: string, u: nat,
                                  verb': string, key': string, ph': string, u': nat)
    requires Signable(target, key) && Signable(target, key')
    requires '\n' !in verb && '\n' !in verb' && '\n' !in ph && '\n' !in ph'
    requires var r, r' := CanonicalRequest(target, verb, key, ph, u), CanonicalRequest(target, verb', key', ph', u');
      sha256Hex(r) == sha256Hex(r') ==> r == r'
    requires StringToSign(sha256Hex, target, verb, key, ph, u) == StringToSign(sha256Hex, target, verb', key', ph', u')
    ensures verb == verb' && key == key' && ph == ph' && u == u'
  {
    hide FormatAmzTime, CanonicalRequest;
    var stamp, stamp' := FormatAmzTime(u), FormatAmzTime(u');
    var h, h' := sha256Hex(CanonicalRequest(target, verb, key, ph, u)),
                 sha256Hex(CanonicalRequest(target, verb', key', ph', u'));
    var s, s' := Scope(target, stamp.dateStamp) + ("\n" + h), Scope(target, stamp'.dateStamp) + ("\n" + h');
    CommonPrefix("AWS4-HMAC-SHA256\n", stamp.amzDate + ("\n" + s), stamp'.amzDate + ("\n" + s'));
    StampHasNoNewline(u);
    StampHasNoNewline(u');
    LineSplits(stamp.amzDate, s, stamp'.amzDate, s');
    StampIsInjective(u, u');
    CommonPrefix(Scope(target, stamp.dateStamp), "\n" + h, "\n" + h');
    CommonPrefix("\n", h, h');
    CanonicalRequestIsUnambiguous(target, verb, key, ph, u, verb', key', ph', u');
  }
}
