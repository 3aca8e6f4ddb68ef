/** The part of CPython's `urllib.parse.urlsplit` that decides the scheme and the network
    location of a URL (what `urlparse(url).scheme` and `.netloc` return), and the
    ValueError it raises on unbalanced IPv6 brackets. */
module UrlParse {
  import opened Wrappers
  import opened Text

  /** `urlsplit` first strips leading C0 controls and spaces (every character up to and
      including ' '). */
  function StripControls(url: string): (r: string)
    ensures |r| <= |url| && r == url[|url| - |r|..]
    ensures r == [] || r[0] > ' '
  {
    if url == [] || url[0] > ' ' then url else StripControls(url[1..])
  }

  predicate IsUnsafe(c: char) {
    c == '\t' || c == '\r' || c == '\n'
  }

  /** ... and then deletes every tab, carriage return and line feed. */
  function RemoveUnsafe(url: string): (r: string)
    ensures |r| <= |url|
    ensures forall i :: 0 <= i < |r| ==> !IsUnsafe(r[i])
  {
    if url == [] then []
    else if IsUnsafe(url[0]) then RemoveUnsafe(url[1..])
    else [url[0]] + RemoveUnsafe(url[1..])
  }

  lemma {:induction false} NothingUnsafe(url: string)
    requires forall i :: 0 <= i < |url| ==> !IsUnsafe(url[i])
    ensures RemoveUnsafe(url) == url
  {
    if url != [] {
      NothingUnsafe(url[1..]);
    }
  }

  /** The text the scheme and netloc are read from. */
  function Clean(url: string): string {
    RemoveUnsafe(StripControls(url))
  }

  /** `s.find(c)`: the index of the first occurrence of `c`. */
  function Find(s: string, c: char): (r: Option<nat>)
    ensures r.None? <==> c !in s
    ensures r.Some? ==> r.value < |s| && s[r.value] == c && c !in s[..r.value]
  {
    if s == [] then None
    else if s[0] == c then Some(0)
    else
      match Find(s[1..], c)
      case None => None
      case Some(i) =>
        assert s[..i + 1] == [s[0]] + s[1..][..i];
        Some(i + 1)
  }

  predicate IsAsciiLetter(c: char) {
    ('a' <= c <= 'z') || ('A' <= c <= 'Z')
  }

  /** `scheme_chars`: ASCII letters and digits, '+', '-' and '.'. */
  predicate IsSchemeChar(c: char) {
    IsAsciiLetter(c) || IsDigit(c) || c == '+' || c == '-' || c == '.'
  }

  /** The prefix before the first ':' is a scheme when it is non-empty, starts with an
      ASCII letter and holds only scheme characters; it is returned lower-cased. */
  function SplitScheme(u: string): (r: (string, string))
    ensures |r.0| <= |u|
  {
    match Find(u, ':')
    case Some(i) =>
      if i > 0 && IsAsciiLetter(u[0]) && forall j :: 0 <= j < i ==> IsSchemeChar(u[j]) then (Lower(u[..i]), u[i + 1..])
      else ("", u)
    case None => ("", u)
  }

  /** `_splitnetloc(url, 2)`: where the network location that starts at index 2 ends,
      that is at the first '/', '?' or '#' from there on, or at the end. */
  function NetlocEnd(rest: string, from: nat): (r: nat)
    requires from <= |rest|
    ensures from <= r <= |rest|
    ensures r == |rest| || rest[r] in "/?#"
    ensures forall j :: from <= j < r ==> rest[j] !in "/?#"
    decreases |rest| - from
  {
    if from == |rest| || rest[from] in "/?#" then from else NetlocEnd(rest, from + 1)
  }

  /** The network location: present only when what follows the scheme starts with "//". */
  function Netloc(rest: string): string {
    if |rest| >= 2 && rest[..2] == "//" then rest[2..NetlocEnd(rest, 2)] else ""
  }

  datatype UrlError = InvalidIPv6Url

  /** `urlsplit(url)`'s scheme and netloc, or the ValueError for a netloc with a '['
      and no ']' or the reverse. */
  function UrlSplit(url: string): (r: Result<(string, string), UrlError>)
    ensures r.Ok? ==> r.value.0 == SplitScheme(Clean(url)).0
  {
    var (scheme, rest) := SplitScheme(Clean(url));
    var netloc := Netloc(rest);
    if ('[' in netloc && ']' !in netloc) || (']' in netloc && '[' !in netloc) then Err(InvalidIPv6Url)
    else Ok((scheme, netloc))
  }

  /** How a scheme and a netloc sit in the cleaned URL `u`, with `rest` starting at index
      `at`: without a scheme `rest` is all of `u`; a scheme is the lower-cased text
      before the first ':', and `rest` follows that ':'. A non-empty netloc comes
      right after a "//" that opens `rest` and runs up to the end of `u` or to the first
      '/', '?' or '#'. The netloc never holds those three characters, and it holds a
      '[' exactly when it holds a ']'. */
  ghost predicate SplitAt(u: string, scheme: string, netloc: string, at: nat) {
    && SchemeAt(u, scheme, at)
    && NetlocAt(u, netloc, at)
    && ('[' in netloc <==> ']' in netloc)
  }

  ghost predicate SchemeAt(u: string, scheme: string, at: nat) {
    && at <= |u|
    && (scheme == "" ==> at == 0)
    && (scheme != "" ==> 0 < at && u[at - 1] == ':' && ':' !in u[..at - 1] && scheme == Lower(u[..at - 1]))
  }

  ghost predicate NetlocAt(u: string, netloc: string, at: nat) {
    && (netloc != "" ==> at + 2 + |netloc| <= |u| && u[at..at + 2] == "//" && u[at + 2..at + 2 + |netloc|] == netloc
                         && (at + 2 + |netloc| == |u| || u[at + 2 + |netloc|] in "/?#"))
    && (forall j :: 0 <= j < |netloc| ==> netloc[j] !in "/?#")
  }

  /** `urlsplit`'s result read off the cleaned URL: the pair reported sits in it as
      `SplitAt` says, and the ValueError is raised only on a URL that holds a bracket. */
  lemma UrlSplitParts(url: string)
    ensures UrlSplit(url).Ok? ==>
      exists at :: SplitAt(Clean(url), UrlSplit(url).value.0, UrlSplit(url).value.1, at)
    ensures UrlSplit(url).Err? ==> '[' in Clean(url) || ']' in Clean(url)
  {
    var u := Clean(url);
    var (scheme, rest) := SplitScheme(u);
    var at := |u| - |rest|;
    SchemeParts(u);
    NetlocPlaced(u, rest, at);
    assert UrlSplit(url).Ok? ==> SplitAt(u, scheme, Netloc(rest), at);
  }

  /** The netloc of a suffix `rest` of `u` sits in `u` as `NetlocAt` says, and each of
      its characters is one of `u`'s. */
  lemma NetlocPlaced(u: string, rest: string, at: nat)
    requires at <= |u| && rest == u[at..]
    ensures NetlocAt(u, Netloc(rest), at)
    ensures forall c :: c in Netloc(rest) ==> c in u
  {
    var n := Netloc(rest);
    NetlocParts(rest);
    if n != "" {
      assert u[at..at + 2] == rest[..2];
      assert u[at + 2..at + 2 + |n|] == rest[2..2 + |n|];
      if at + 2 + |n| < |u| {
        assert u[at + 2 + |n|] == rest[2 + |n|];
      }
    }
    forall c | c in n
      ensures c in u
    {
      var j :| 0 <= j < |n| && n[j] == c;
      assert u[at + 2 + j] == n[j];
    }
  }

  /** Where `SplitScheme` cuts `u`: what follows the scheme is a suffix of `u`, all of it
      when there is no scheme and from just after the first ':' otherwise. */
  lemma SchemeParts(u: string)
    ensures var (scheme, rest) := SplitScheme(u);
      rest == u[|u| - |rest|..] && SchemeAt(u, scheme, |u| - |rest|)
  {
    match Find(u, ':')
    case Some(i) =>
      if i > 0 && IsAsciiLetter(u[0]) && forall j :: 0 <= j < i ==> IsSchemeChar(u[j]) {
        assert |Lower(u[..i])| == i;
      }
    case None =>
  }

  /** The netloc is the text after a leading "//" up to the first '/', '?' or '#' or the
      end, and so holds none of them. */
  lemma NetlocParts(rest: string)
    ensures var n := Netloc(rest);
      && (forall j :: 0 <= j < |n| ==> n[j] !in "/?#")
      && (n != "" ==> 2 + |n| <= |rest| && rest[..2] == "//" && rest[2..2 + |n|] == n
                      && (2 + |n| == |rest| || rest[2 + |n|] in "/?#"))
  {
    if |rest| >= 2 && rest[..2] == "//" {
      var e := NetlocEnd(rest, 2);
      assert forall j :: 0 <= j < e - 2 ==> rest[2..e][j] == rest[j + 2];
    }
  }

  /** `is_valid_url`: the scheme is "http" or "https" and the netloc is not empty;
      false when parsing raises. */
  predicate IsValidUrl(url: string) {
    match UrlSplit(url)
    case Ok((scheme, netloc)) => (scheme == "http" || scheme == "https") && netloc != ""
    case Err(_) => false
  }

  /** A host character: not a delimiter of the netloc, not a bracket, not whitespace or a
      control character. */
  predicate IsHostChar(c: char) {
    c > ' ' && c !in "/?#[]"
  }

  /** An http or https URL (the scheme in any letter case) with a non-empty host, and a
      path, query or fragment after it, is valid. */
  lemma HttpUrlIsValid(scheme: string, host: string, tail: string)
    requires Lower(scheme) == "http" || Lower(scheme) == "https"
    requires host != [] && forall i :: 0 <= i < |host| ==> IsHostChar(host[i])
    requires tail == [] || tail[0] in "/?#"
    requires forall i :: 0 <= i < |tail| ==> !IsUnsafe(tail[i])
    ensures IsValidUrl(scheme + "://" + host + tail)
  {
    var rest := "//" + host + tail;
    var url := scheme + ":" + rest;
    assert url == scheme + "://" + host + tail;
    SchemeIsLetters(scheme);
    HostAndTailSafe(host, tail);
    CleanKeeps(scheme, rest);
    SplitSchemeAt(scheme, rest);
    NetlocIsHost(host, tail);
  }

  lemma SchemeIsLetters(scheme: string)
    requires Lower(scheme) == "http" || Lower(scheme) == "https"
    ensures scheme != [] && forall i :: 0 <= i < |scheme| ==> IsAsciiLetter(scheme[i])
  {
    forall i | 0 <= i < |scheme| ensures IsAsciiLetter(scheme[i]) {
      assert Lower(scheme)[i] == LowerChar(scheme[i]);
    }
  }

  lemma HostAndTailSafe(host: string, tail: string)
    requires forall i :: 0 <= i < |host| ==> IsHostChar(host[i])
    requires forall i :: 0 <= i < |tail| ==> !IsUnsafe(tail[i])
    ensures forall i :: 0 <= i < |"//" + host + tail| ==> !IsUnsafe(("//" + host + tail)[i])
  {
    var rest := "//" + host + tail;
    forall i | 0 <= i < |rest| ensures !IsUnsafe(rest[i]) {
      if 2 <= i < 2 + |host| {
        assert rest[i] == host[i - 2];
      } else if i >= 2 + |host| {
        assert rest[i] == tail[i - 2 - |host|];
      }
    }
  }

  /** A URL that starts with a letter and holds no tab or line break is left as it is. */
  lemma CleanKeeps(scheme: string, rest: string)
    requires scheme != [] && forall i :: 0 <= i < |scheme| ==> IsAsciiLetter(scheme[i])
    requires forall i :: 0 <= i < |rest| ==> !IsUnsafe(rest[i])
    ensures Clean(scheme + ":" + rest) == scheme + ":" + rest
  {
    var url := scheme + ":" + rest;
    assert url[0] == scheme[0];
    forall i | 0 <= i < |url| ensures !IsUnsafe(url[i]) {
      if i < |scheme| {
        assert url[i] == scheme[i];
      } else if i > |scheme| {
        assert url[i] == rest[i - |scheme| - 1];
      }
    }
    NothingUnsafe(url);
  }

  lemma SplitSchemeAt(scheme: string, rest: string)
    requires scheme != [] && forall i :: 0 <= i < |scheme| ==> IsAsciiLetter(scheme[i])
    ensures SplitScheme(scheme + ":" + rest) == (Lower(scheme), rest)
  {
    var u := scheme + ":" + rest;
    assert u[..|scheme|] == scheme;
    assert u[|scheme| + 1..] == rest;
    assert ':' !in scheme by {
      forall i | 0 <= i < |scheme| ensures scheme[i] != ':' {
        assert IsAsciiLetter(scheme[i]);
      }
    }
    assert Find(u, ':') == Some(|scheme|) by {
      assert u[|scheme|] == ':';
      FindFirst(u, ':', |scheme|);
    }
  }

  lemma FindFirst(s: string, c: char, i: nat)
    requires i < |s| && s[i] == c && c !in s[..i]
    ensures Find(s, c) == Some(i)
  {
    var j := Find(s, c).value;
    assert j <= i by {
      assert s[..j + 1][j] == c;
    }
    assert forall k :: 0 <= k < i ==> s[..i][k] == s[k];
    assert forall k :: 0 <= k < j ==> s[..j][k] == s[k];

  }

  lemma NetlocIsHost(host: string, tail: string)
    requires host != [] && forall i :: 0 <= i < |host| ==> IsHostChar(host[i])
    requires tail == [] || tail[0] in "/?#"
    ensures Netloc("//" + host + tail) == host
    ensures '[' !in host && ']' !in host
  {
    var rest := "//" + host + tail;
    assert rest[..2] == "//";
    assert rest == rest[..2] + host + tail;
    NetlocEndAt(rest, 2, host, tail);
    assert rest[2..2 + |host|] == host;
    forall i | 0 <= i < |host| ensures host[i] != '[' && host[i] != ']' {
      assert IsHostChar(host[i]);
    }
  }

  lemma {:induction false} NetlocEndAt(rest: string, from: nat, host: string, tail: string)
    requires from <= |rest| && rest == rest[..from] + host + tail
    requires forall i :: 0 <= i < |host| ==> IsHostChar(host[i])
    requires tail == [] || tail[0] in "/?#"
    ensures NetlocEnd(rest, from) == from + |host|
    decreases |host|
  {
    if host != [] {
      assert rest[from] == host[0] && IsHostChar(host[0]);
      assert rest == rest[..from + 1] + host[1..] + tail;
      NetlocEndAt(rest, from + 1, host[1..], tail);
    } else if tail != [] {
      assert rest[from] == tail[0];
    }
  }

  /** Conversely, a valid URL is, once cleaned, a scheme spelt "http" or "https" in any
      letter case, then "://", then a netloc whose first character is not '/', '?'
      or '#'. */
  lemma ValidUrlShape(url: string)
    requires IsValidUrl(url)
    ensures var u := Clean(url);
      exists n :: (n == 4 || n == 5) && n + 3 < |u| && (Lower(u[..n]) == "http" || Lower(u[..n]) == "https")
        && u[n..n + 3] == "://" && u[n + 3] !in "/?#"
  {
    var u := Clean(url);
    var i := Find(u, ':').value;
    var rest := u[i + 1..];
    assert SplitScheme(u) == (Lower(u[..i]), rest);
    assert |rest| >= 2 && rest[..2] == "//";
    assert NetlocEnd(rest, 2) > 2;
    ShapeAt(u, i);
  }

  lemma ShapeAt(u: string, i: nat)
    requires i < |u| && u[i] == ':'
    requires |u[i + 1..]| > 2 && u[i + 1..][..2] == "//" && u[i + 1..][2] !in "/?#"
    ensures i + 3 < |u| && u[i..i + 3] == "://" && u[i + 3] !in "/?#"
  {
    assert u[i + 1] == '/' && u[i + 2] == '/' by {
      assert u[i + 1..][..2][0] == u[i + 1] && u[i + 1..][..2][1] == u[i + 2];
    }
    assert u[i + 1..][2] == u[i + 3];
  }
}
