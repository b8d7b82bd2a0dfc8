/**
 * The two URL helpers of the shortener: scheme enforcement and the
 * self-referential domain guard, together with the pieces of Go's string
 * library they are built from (`strings.Replace` with a count of one and the
 * first field of `strings.Split`).
 */
module Helpers {

  /** `p` occurs in `s` starting at index `i`. */
  predicate OccursAt(s: string, p: string, i: nat)
  {
    i + |p| <= |s| && s[i..i + |p|] == p
  }

  /** `i` is the leftmost index at which `p` occurs in `s`. */
  predicate FirstOccurrence(s: string, p: string, i: nat)
  {
    OccursAt(s, p, i) && forall j :: 0 <= j < i ==> !OccursAt(s, p, j)
  }

  predicate Contains(s: string, p: string)
  {
    exists i :: 0 <= i <= |s| && OccursAt(s, p, i)
  }

  /**
   * `strings.Replace(s, p, q, 1)`: the leftmost occurrence of `p`, wherever
   * it is, is replaced by `q`; without one `s` is returned. As in Go, an
   * empty `p` matches at the very beginning.
   */
  function ReplaceFirst(s: string, p: string, q: string): string
    decreases |s|
  {
    if p <= s then q + s[|p|..]
    else if s == [] then s
    else [s[0]] + ReplaceFirst(s[1..], p, q)
  }

  lemma OccursShift(a: string, b: string, p: string, j: nat)
    ensures OccursAt(a + b, p, |a| + j) <==> OccursAt(b, p, j)
  {
    if |a| + j + |p| <= |a + b| {
      assert (a + b)[|a| + j..|a| + j + |p|] == b[j..j + |p|];
    }
  }

  /** Without a match, nothing is replaced. */
  lemma {:induction false} ReplaceMisses(s: string, p: string, q: string)
    requires !Contains(s, p)
    ensures ReplaceFirst(s, p, q) == s
    decreases |s|
  {
    assert !OccursAt(s, p, 0);
    if s != [] {
      var t := s[1..];
      assert s == [s[0]] + t;
      assert !Contains(t, p) by {
        forall j: nat | j <= |t| ensures !OccursAt(t, p, j) {
          OccursShift([s[0]], t, p, j);
        }
      }
      ReplaceMisses(t, p, q);
    }
  }

  /** The leftmost match, wherever it is, is the one replaced. */
  lemma {:induction false} ReplaceAtFirst(s: string, p: string, q: string, i: nat)
    requires FirstOccurrence(s, p, i)
    ensures ReplaceFirst(s, p, q) == s[..i] + q + s[i + |p|..]
    decreases i
  {
    if i == 0 {
      assert s[..|p|] == p;
    } else {
      assert !OccursAt(s, p, 0);
      var t := s[1..];
      assert s == [s[0]] + t;
      OccursShift([s[0]], t, p, i - 1);
      assert FirstOccurrence(t, p, i - 1) by {
        forall j: nat | j < i - 1 ensures !OccursAt(t, p, j) {
          OccursShift([s[0]], t, p, j);
        }
      }
      ReplaceAtFirst(t, p, q, i - 1);
      assert s[..i] == [s[0]] + t[..i - 1];
      assert s[i + |p|..] == t[i - 1 + |p|..];
    }
  }

  /** `strings.Split(s, "/")[0]`: the text before the first '/'. */
  function FirstField(s: string): (r: string)
    ensures |r| <= |s| && r == s[..|r|]
    ensures '/' !in r
    ensures |r| == |s| || s[|r|] == '/'
  {
    if s == [] || s[0] == '/' then []
    else [s[0]] + FirstField(s[1..])
  }

  /**
   * The host the domain guard compares: the first occurrence of "http://",
   * then of "https://", then of "www." is removed, and the rest is cut at
   * the first '/'.
   */
  function Host(url: string): string
  {
    var noHttp := ReplaceFirst(url, "http://", "");
    var noHttps := ReplaceFirst(noHttp, "https://", "");
    var noWww := ReplaceFirst(noHttps, "www.", "");
    FirstField(noWww)
  }

  /**
   * helpers.EnforceHTTP: "http://" is prepended unless the URL already
   * starts with "http". Slicing `url[:4]` needs four characters.
   */
  function EnforceHTTP(url: string): (r: string)
    requires |url| >= 4
    ensures |r| >= 4 && r[..4] == "http"
    ensures r == url <==> url[..4] == "http"
    ensures r != url ==> r == "http://" + url
  {
    if url[..4] != "http" then "http://" + url else url
  }

  /**
   * helpers.RemoveDomainError with the DOMAIN setting as a parameter: true
   * when the URL may be shortened, false when it names the service itself.
   */
  function RemoveDomainError(url: string, domain: string): (allowed: bool)
    ensures allowed <==> url != domain && Host(url) != domain
  {
    if url == domain then false
    else if Host(url) == domain then false
    else true
  }

  /** Enforcing the scheme twice is enforcing it once. */
  lemma EnforceHTTPIdempotent(url: string)
    requires |url| >= 4
    ensures EnforceHTTP(EnforceHTTP(url)) == EnforceHTTP(url)
  {
  }

  /** The original URL survives, unchanged, at the end of the enforced one. */
  lemma EnforceHTTPKeepsUrl(url: string)
    requires |url| >= 4
    ensures var r := EnforceHTTP(url); |url| <= |r| && r[|r| - |url|..] == url
  {
  }

  // ---------------------------------------------------------------------
  // Lemmas about ReplaceFirst and FirstField used by the guard's lemmas.

  /** Empty, or a path that starts with '/'. */
  predicate PathLike(y: string)
  {
    y == [] || y[0] == '/'
  }

  /** No occurrence of `p` in `s` starts before index `n`. */
  predicate NoOccurrenceBefore(s: string, p: string, n: nat)
  {
    forall i: nat :: i < n ==> !OccursAt(s, p, i)
  }

  /** Every '/' of `p` comes after a ':' of `p`. */
  predicate SlashAfterColon(p: string)
  {
    forall k :: 0 <= k < |p| && p[k] == '/' ==> ':' in p[..k]
  }

  lemma NoOccurrenceConcat(a: string, b: string, p: string, n: nat)
    requires NoOccurrenceBefore(a + b, p, |a|)
    requires NoOccurrenceBefore(b, p, n)
    ensures NoOccurrenceBefore(a + b, p, |a| + n)
  {
    forall i: nat | |a| <= i < |a| + n ensures !OccursAt(a + b, p, i) {
      OccursShift(a, b, p, i - |a|);
    }
  }

  /** A replacement whose first match lies past `x` leaves `x` alone. */
  lemma {:induction false} ReplaceInTail(x: string, y: string, p: string, q: string)
    requires NoOccurrenceBefore(x + y, p, |x|)
    ensures ReplaceFirst(x + y, p, q) == x + ReplaceFirst(y, p, q)
    decreases |x|
  {
    if x == [] {
      assert x + y == y;
    } else {
      var s := x + y;
      assert !OccursAt(s, p, 0);
      assert !(p <= s);
      var t := x[1..] + y;
      assert s == [x[0]] + t;
      assert s[1..] == t;
      assert NoOccurrenceBefore(t, p, |x| - 1) by {
        forall j: nat | j < |x| - 1 ensures !OccursAt(t, p, j) {
          OccursShift([x[0]], t, p, j);
        }
      }
      ReplaceInTail(x[1..], y, p, q);
      assert [x[0]] + (x[1..] + ReplaceFirst(y, p, q)) == x + ReplaceFirst(y, p, q);
    }
  }

  /** A match at the very front is the one that is replaced. */
  lemma ReplaceAtFront(p: string, y: string, q: string)
    ensures ReplaceFirst(p + y, p, q) == q + y
  {
    assert p <= p + y;
    assert (p + y)[|p|..] == y;
  }

  lemma ColonBlocks(x: string, p: string)
    requires ':' !in x && ':' in p
    ensures !Contains(x, p)
  {
    forall i: nat | i <= |x| ensures !OccursAt(x, p, i) {
      if i + |p| <= |x| { assert ':' !in x[i..i + |p|]; }
    }
  }

  /**
   * A part `x` free of ':' and of `p`, followed by a path, holds no
   * occurrence of `p` when every '/' of `p` follows a ':' of `p`: a match
   * would have to run from `x` across the path's leading '/'.
   */
  lemma NoOccurrenceInHead(x: string, y: string, p: string)
    requires ':' !in x && !Contains(x, p) && SlashAfterColon(p)
    requires PathLike(y)
    ensures NoOccurrenceBefore(x + y, p, |x|)
  {
    var s := x + y;
    forall i: nat | i < |x| ensures !OccursAt(s, p, i) {
      if i + |p| <= |x| {
        assert !OccursAt(x, p, i);
        assert x[i..i + |p|] == s[i..i + |p|];
      } else if i + |p| <= |s| {
        var k := |x| - i;
        assert s[i + k] == '/';
        if p[k] == '/' {
          assert ':' in p[..k];
          assert s[i..i + k] == x[i..];
          assert s[i..i + |p|][..k] == s[i..i + k];
          assert s[i..i + |p|][..k] != p[..k];
        } else {
          assert s[i..i + |p|][k] != p[k];
        }
      }
    }
  }

  /** Replacing removes at most a match, so a leading '/' stays in front. */
  lemma ReplaceKeepsPath(y: string, p: string)
    requires PathLike(y)
    requires |p| > 0 && p[0] != '/'
    ensures PathLike(ReplaceFirst(y, p, ""))
  {
  }

  /** Removing `p` from host-then-path only touches the path. */
  lemma StripInTail(x: string, y: string, p: string)
    requires ':' !in x && !Contains(x, p) && SlashAfterColon(p)
    requires |p| > 0 && p[0] != '/'
    requires PathLike(y)
    ensures ReplaceFirst(x + y, p, "") == x + ReplaceFirst(y, p, "")
    ensures PathLike(ReplaceFirst(y, p, ""))
  {
    NoOccurrenceInHead(x, y, p);
    ReplaceInTail(x, y, p, "");
    ReplaceKeepsPath(y, p);
  }

  /** Cutting at the first '/' of `x + y` keeps `x` when `y` is a path. */
  lemma {:induction false} FirstFieldOfHost(x: string, y: string)
    requires '/' !in x
    requires PathLike(y)
    ensures FirstField(x + y) == x
  {
    if x != [] {
      assert (x + y)[1..] == x[1..] + y;
      FirstFieldOfHost(x[1..], y);
    }
  }

  /** "https://" holds no match of "http://". */
  lemma HttpNotInHttps(rest: string)
    ensures NoOccurrenceBefore("https://" + rest, "http://", 8)
  {
    var s := "https://" + rest;
    forall i: nat | i < 8 ensures !OccursAt(s, "http://", i) {
      if i + 7 <= |s| {
        if i == 0 {
          assert s[i..i + 7][4] == 's';
        } else {
          assert s[i..i + 7][0] != 'h';
        }
      }
    }
  }

  lemma SchemeFacts()
    ensures SlashAfterColon("http://") && SlashAfterColon("https://") && SlashAfterColon("www.")
  {
    forall k | 0 <= k < 7 && "http://"[k] == '/' ensures ':' in "http://"[..k] {
      assert "http://"[..k][4] == ':';
    }
    forall k | 0 <= k < 8 && "https://"[k] == '/' ensures ':' in "https://"[..k] {
      assert "https://"[..k][5] == ':';
    }
  }

  /** Removing "http://" and then "https://" from a link to the host. */
  lemma StripSchemes(scheme: string, host: string, path: string) returns (tail: string)
    requires scheme == "" || scheme == "http://" || scheme == "https://"
    requires ':' !in host && PathLike(path)
    ensures PathLike(tail)
    ensures ReplaceFirst(ReplaceFirst(scheme + host + path, "http://", ""), "https://", "") == host + tail
  {
    SchemeFacts();
    ColonBlocks(host, "http://");
    ColonBlocks(host, "https://");
    if scheme == "http://" {
      tail := StripFromHttp(host, path);
    } else if scheme == "https://" {
      tail := StripFromHttps(host, path);
    } else {
      assert scheme + host + path == host + path;
      StripInTail(host, path, "http://");
      var path1 := ReplaceFirst(path, "http://", "");
      StripInTail(host, path1, "https://");
      tail := ReplaceFirst(path1, "https://", "");
    }
  }

  lemma StripFromHttp(host: string, path: string) returns (tail: string)
    requires ':' !in host && !Contains(host, "https://") && SlashAfterColon("https://")
    requires PathLike(path)
    ensures PathLike(tail)
    ensures ReplaceFirst(ReplaceFirst("http://" + host + path, "http://", ""), "https://", "") == host + tail
  {
    assert "http://" + host + path == "http://" + (host + path);
    ReplaceAtFront("http://", host + path, "");
    assert "" + (host + path) == host + path;
    StripInTail(host, path, "https://");
    tail := ReplaceFirst(path, "https://", "");
  }

  lemma StripFromHttps(host: string, path: string) returns (tail: string)
    requires ':' !in host && !Contains(host, "http://") && SlashAfterColon("http://")
    requires PathLike(path)
    ensures PathLike(tail)
    ensures ReplaceFirst(ReplaceFirst("https://" + host + path, "http://", ""), "https://", "") == host + tail
  {
    var url := "https://" + host + path;
    assert url == "https://" + (host + path);
    HttpNotInHttps(host + path);
    NoOccurrenceInHead(host, path, "http://");
    NoOccurrenceConcat("https://", host + path, "http://", |host|);
    assert url == ("https://" + host) + path;
    ReplaceInTail("https://" + host, path, "http://", "");
    tail := ReplaceFirst(path, "http://", "");
    ReplaceKeepsPath(path, "http://");
    assert ("https://" + host) + tail == "https://" + (host + tail);
    ReplaceAtFront("https://", host + tail, "");
  }

  /** Removing "www." from the host-then-path left after the schemes. */
  lemma StripWww(www: bool, domain: string, tail: string) returns (rest: string)
    requires ':' !in domain && !Contains(domain, "www.") && PathLike(tail)
    ensures PathLike(rest)
    ensures ReplaceFirst((if www then "www." else "") + domain + tail, "www.", "") == domain + rest
  {
    if www {
      assert "www." + domain + tail == "www." + (domain + tail);
      ReplaceAtFront("www.", domain + tail, "");
      assert "" + (domain + tail) == domain + tail;
      rest := tail;
    } else {
      assert "" + domain + tail == domain + tail;
      SchemeFacts();
      StripInTail(domain, tail, "www.");
      rest := ReplaceFirst(tail, "www.", "");
    }
  }

  /** A host without a 'w' holds no "www.". */
  lemma NoWwwWithoutW(host: string)
    requires 'w' !in host
    ensures !Contains(host, "www.")
  {
    forall i: nat | i <= |host| ensures !OccursAt(host, "www.", i) {
      if i + 4 <= |host| { assert host[i..i + 4][0] == host[i]; }
    }
  }

  /**
   * For a link written as an optional "http://" or "https://", an optional
   * "www.", a host free of ':', '/' and "www.", and a path, the guard
   * compares exactly that host.
   */
  lemma HostOfLink(scheme: string, www: bool, host: string, path: string)
    requires scheme == "" || scheme == "http://" || scheme == "https://"
    requires ':' !in host && '/' !in host && !Contains(host, "www.")
    requires PathLike(path)
    ensures Host(scheme + (if www then "www." else "") + host + path) == host
  {
    var w := if www then "www." else "";
    var url := scheme + w + host + path;
    assert url == scheme + (w + host) + path;
    assert ':' !in w + host;
    var tail := StripSchemes(scheme, w + host, path);
    assert (w + host) + tail == w + host + tail;
    var rest := StripWww(www, host, tail);
    FirstFieldOfHost(host, rest);
  }

  /**
   * The guard refuses every link to the service's own domain, whatever its
   * scheme, "www." and path.
   */
  lemma SelfLinkRejected(domain: string, scheme: string, www: bool, path: string)
    requires scheme == "" || scheme == "http://" || scheme == "https://"
    requires ':' !in domain && '/' !in domain && !Contains(domain, "www.")
    requires PathLike(path)
    ensures !RemoveDomainError(scheme + (if www then "www." else "") + domain + path, domain)
  {
    HostOfLink(scheme, www, domain, path);
  }

  /** ... and lets through every link to another host. */
  lemma OtherHostAccepted(domain: string, scheme: string, www: bool, host: string, path: string)
    requires scheme == "" || scheme == "http://" || scheme == "https://"
    requires ':' !in host && '/' !in host && !Contains(host, "www.")
    requires PathLike(path)
    requires host != domain
    requires scheme + (if www then "www." else "") + host + path != domain
    ensures RemoveDomainError(scheme + (if www then "www." else "") + host + path, domain)
  {
    HostOfLink(scheme, www, host, path);
  }

  /**
   * Because the first "www." anywhere is removed, not only a leading one, a
   * host that merely contains "www." is compared without it: "short.www.ly"
   * is refused as a link to "short.ly".
   */
  lemma InnerWwwIsRemoved(lead: string, rest: string)
    requires 'w' !in lead && ':' !in lead + rest && '/' !in lead + rest
    ensures Host(lead + "www." + rest) == lead + rest
    ensures !RemoveDomainError(lead + "www." + rest, lead + rest)
  {
    var s := lead + "www." + rest;
    assert ':' !in s;
    ColonBlocks(s, "http://");
    ColonBlocks(s, "https://");
    ReplaceMisses(s, "http://", "");
    ReplaceMisses(s, "https://", "");
    var s3 := DropInnerWww(lead, rest);
    assert '/' !in s3;
    FirstFieldOfHost(s3, "");
    assert s3 + "" == s3;
  }

  lemma DropInnerWww(lead: string, rest: string) returns (r: string)
    requires 'w' !in lead
    ensures r == lead + rest
    ensures ReplaceFirst(lead + "www." + rest, "www.", "") == r
  {
    var s := lead + "www." + rest;
    assert s == lead + ("www." + rest);
    assert NoOccurrenceBefore(s, "www.", |lead|) by {
      forall j: nat | j < |lead| ensures !OccursAt(s, "www.", j) {
        if j + 4 <= |s| { assert s[j..j + 4][0] == lead[j]; }
      }
    }
    ReplaceInTail(lead, "www." + rest, "www.", "");
    ReplaceAtFront("www.", rest, "");
    assert "" + rest == rest;
    r := lead + rest;
  }
}
